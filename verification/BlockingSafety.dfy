/**
 Pipes and scheduler together: a thread that was told to wait is not run until the pipe has changed.

 These results use the step guard: a blocked thread issues no pipe call. In the kernel that is so because a
 blocked thread is not running; here it is a hypothesis on the run.
 */
module BlockingSafety {
  import opened Types
  import opened PipeSpec
  import opened PipeSteps
  import opened KernelMachine
  import S = SchedulerSpec
  import Runs = SchedulerRuns

  /** The thread is inside a pipe call and has not been told to wait. */
  ghost predicate Calling(k: Kernel, t: Tid) {
    t in k.ctl &&
    match k.ctl[t]
    case Called(_, _) => true
    case Wants(_, _) => true
    case Inside(id) =>
      id in k.pipes && k.pipes[id].crit.Held?
      && !(k.pipes[id].crit.pc.Unlock? && (k.pipes[id].crit.result.PipeFull? || k.pipes[id].crit.result.PipeEmpty?))
    case _ => false
  }

  /** The thread has put itself on the pipe's list and is about to mark itself blocked. */
  ghost predicate AtBlock(k: Kernel, id: PipeId, t: Tid) {
    id in k.pipes && k.pipes[id].crit.Held? && k.pipes[id].crit.pc.Block? && k.pipes[id].crit.tid == t
  }

  ghost predicate NoRepeat(s: seq<Tid>) {
    forall i, j :: 0 <= i < j < |s| ==> s[i] != s[j]
  }

  ghost predicate WaitsOnce(k: Kernel, id: PipeId)
    requires id in k.pipes
  {
    NoRepeat(Pending(k.pipes[id])) && forall t :: t in Pending(k.pipes[id]) ==> WaitsFor(k, id, t)
  }

  ghost predicate WaitsFor(k: Kernel, id: PipeId, t: Tid) {
    t in k.sys.thr && (k.sys.thr[t].blockedBy == Some(id) || AtBlock(k, id, t))
  }

  /** With the guard, every thread still to be notified waits for one pipe, in one place. */
  ghost predicate Orderly(k: Kernel) {
    && (forall id :: id in k.pipes ==> WaitsOnce(k, id))
    && (forall t :: Calling(k, t) && t in k.sys.thr ==> k.sys.thr[t].blockedBy.None?)
  }

  lemma AtBlockIsCalling(k: Kernel, id: PipeId, t: Tid)
    requires Sound(k) && AtBlock(k, id, t)
    ensures t in k.ctl && k.ctl[t] == Inside(id) && Calling(k, t) && t in k.sys.thr
  {
    assert HolderKnown(k, id);
    assert CtlOk(k, t);
  }

  lemma HolderIsCalling(k: Kernel, id: PipeId)
    requires Sound(k) && id in k.pipes && k.pipes[id].crit.Held?
    ensures var t := k.pipes[id].crit.tid; t in k.ctl && k.ctl[t] == Inside(id) && t in k.sys.thr
    ensures !k.pipes[id].crit.pc.Unlock? ==> Calling(k, k.pipes[id].crit.tid)
  {
    assert HolderKnown(k, id);
    assert CtlOk(k, k.pipes[id].crit.tid);
  }

  /** The thread that an update notifies waits for that very pipe. */
  lemma WokenWaits(k: Kernel, id: PipeId)
    requires Sound(k) && Orderly(k) && id in k.pipes && k.pipes[id].crit.Held? && Woken(k.pipes[id]).Some?
    ensures var t := Woken(k.pipes[id]).value;
            t in Pending(k.pipes[id]) && t in k.sys.thr && k.sys.thr[t].blockedBy == Some(id)
  {
    var p := k.pipes[id];
    var t := Woken(p).value;
    assert Pending(p)[p.crit.pc.left - 1] == t;
    assert WaitsOnce(k, id) && WaitsFor(k, id, t);
  }

  lemma NoRepeatSnoc(s: seq<Tid>, t: Tid)
    ensures NoRepeat(s + [t]) <==> NoRepeat(s) && t !in s
  {
    var s' := s + [t];
    assert s'[|s|] == t;
    assert forall i :: 0 <= i < |s| ==> s'[i] == s[i];
  }

  lemma MovedAppend(k: Kernel, id: PipeId, sys': S.Sys, p': Pipe)
    requires Sound(k) && Orderly(k) && Enabled(k, Micro(id)) && k.pipes[id].crit.pc.Append?
    requires PipeOk(p') && Refines(k.pipes[id], p') && WaitersChange(k.pipes[id], p')
    requires BlockedChange(k.sys.thr, sys'.thr, id, k.pipes[id])
    ensures WaitsOnce(Moved(k, id, sys', p'), id)
  {
    var p, k' := k.pipes[id], Moved(k, id, sys', p');
    HolderIsCalling(k, id);
    assert WaitsOnce(k, id) && !WaitsFor(k, id, p.crit.tid);
    NoRepeatSnoc(Pending(p), p.crit.tid);
    forall t | t in Pending(p') ensures WaitsFor(k', id, t) {
      assert t in Pending(p) ==> WaitsFor(k, id, t);
    }
  }

  lemma MovedOrderlyPipe(k: Kernel, id: PipeId, sys': S.Sys, p': Pipe)
    requires Sound(k) && Orderly(k) && Enabled(k, Micro(id)) && !k.pipes[id].crit.pc.Append?
    requires PipeOk(p') && Refines(k.pipes[id], p') && WaitersChange(k.pipes[id], p')
    requires BlockedChange(k.sys.thr, sys'.thr, id, k.pipes[id])
    ensures WaitsOnce(Moved(k, id, sys', p'), id)
  {
    var p, k' := k.pipes[id], Moved(k, id, sys', p');
    assert WaitsOnce(k, id);
    if Woken(p).Some? {
      NoRepeatSnoc(Pending(p'), Woken(p).value);
    } else {
      assert Pending(p') == Pending(p);
    }
    forall t | t in Pending(p') ensures WaitsFor(k', id, t) {
      assert t in Pending(p) && WaitsFor(k, id, t);
    }
  }

  lemma MovedOrderlyOther(k: Kernel, id: PipeId, sys': S.Sys, p': Pipe, j: PipeId)
    requires Sound(k) && Orderly(k) && Enabled(k, Micro(id)) && j in k.pipes && j != id
    requires BlockedChange(k.sys.thr, sys'.thr, id, k.pipes[id])
    ensures WaitsOnce(Moved(k, id, sys', p'), j)
  {
    var p, k' := k.pipes[id], Moved(k, id, sys', p');
    HolderIsCalling(k, id);
    if Woken(p).Some? {
      WokenWaits(k, id);
    }
    assert WaitsOnce(k, j);
    forall t | t in Pending(k'.pipes[j]) ensures WaitsFor(k', j, t) {
      assert WaitsFor(k, j, t);
      if AtBlock(k, j, t) {
        assert AtBlock(k', j, t);
      }
    }
  }

  lemma MovedCalling(k: Kernel, id: PipeId, sys': S.Sys, p': Pipe, t: Tid)
    requires Sound(k) && Orderly(k) && Enabled(k, Micro(id))
    requires PipeOk(p') && Refines(k.pipes[id], p') && WaitersChange(k.pipes[id], p')
    requires BlockedChange(k.sys.thr, sys'.thr, id, k.pipes[id])
    requires Calling(Moved(k, id, sys', p'), t) && t in sys'.thr
    ensures sys'.thr[t].blockedBy.None?
  {
    if t == k.pipes[id].crit.tid {
      HolderCalling(k, id, sys', p');
    } else {
      OtherCalling(k, id, sys', p', t);
    }
  }

  /** The update by which a thread marks itself blocked ends its call, with the result that tells it to wait. */
  lemma BlockEndsCall(p: Pipe, p': Pipe)
    requires PipeOk(p) && p.crit.Held? && p.crit.pc.Block? && PipeOk(p') && Refines(p, p') && WaitersChange(p, p')
    ensures p'.crit.Held? && p'.crit.pc.Unlock? && (p'.crit.result.PipeFull? || p'.crit.result.PipeEmpty?)
  {
  }

  /** The lock's holder, as long as its call goes on, is not marked blocked. */
  lemma HolderCalling(k: Kernel, id: PipeId, sys': S.Sys, p': Pipe)
    requires Sound(k) && Orderly(k) && Enabled(k, Micro(id))
    requires PipeOk(p') && Refines(k.pipes[id], p') && WaitersChange(k.pipes[id], p')
    requires BlockedChange(k.sys.thr, sys'.thr, id, k.pipes[id])
    requires Calling(Moved(k, id, sys', p'), k.pipes[id].crit.tid) && k.pipes[id].crit.tid in sys'.thr
    ensures sys'.thr[k.pipes[id].crit.tid].blockedBy.None?
  {
    HolderIsCalling(k, id);
    if k.pipes[id].crit.pc.Block? {
      assert PipeOk(k.pipes[id]);
      BlockEndsCall(k.pipes[id], p');
    }
  }

  /** Any other thread in a call was in it before, and is not the one that the update marks. */
  lemma OtherCalling(k: Kernel, id: PipeId, sys': S.Sys, p': Pipe, t: Tid)
    requires Sound(k) && Orderly(k) && Enabled(k, Micro(id)) && t != k.pipes[id].crit.tid
    requires BlockedChange(k.sys.thr, sys'.thr, id, k.pipes[id])
    requires Calling(Moved(k, id, sys', p'), t) && t in sys'.thr
    ensures sys'.thr[t].blockedBy.None?
  {
    assert CtlOk(k, t);
    assert Calling(k, t);
  }

  lemma MovedOrderly(k: Kernel, id: PipeId, sys': S.Sys, p': Pipe)
    requires Sound(k) && Orderly(k) && Enabled(k, Micro(id))
    requires PipeOk(p') && Refines(k.pipes[id], p') && WaitersChange(k.pipes[id], p')
    requires BlockedChange(k.sys.thr, sys'.thr, id, k.pipes[id])
    ensures Orderly(Moved(k, id, sys', p'))
  {
    var p, k' := k.pipes[id], Moved(k, id, sys', p');
    forall j | j in k'.pipes ensures WaitsOnce(k', j) {
      if j == id {
        if p.crit.pc.Append? {
          MovedAppend(k, id, sys', p');
        } else {
          MovedOrderlyPipe(k, id, sys', p');
        }
      } else {
        MovedOrderlyOther(k, id, sys', p', j);
      }
    }
    forall t | Calling(k', t) && t in k'.sys.thr ensures k'.sys.thr[t].blockedBy.None? {
      MovedCalling(k, id, sys', p', t);
    }
  }

  lemma OtherOrderly(k: Kernel, e: Event)
    requires Sound(k) && Orderly(k) && Enabled(k, e) && Guard(k, e) && !e.Micro?
    ensures Orderly(Next(k, e))
  {
    var k' := Next(k, e);
    if e.Sched? {
      SchedKeepsBlocked(k, e.event);
    }
    forall id | id in k'.pipes ensures WaitsOnce(k', id) {
      if id in k.pipes {
        assert WaitsOnce(k, id);
        assert Pending(k'.pipes[id]) == Pending(k.pipes[id]);
        forall t | t in Pending(k'.pipes[id]) ensures WaitsFor(k', id, t) {
          assert WaitsFor(k, id, t);
        }
      }
    }
    forall t | Calling(k', t) && t in k'.sys.thr ensures k'.sys.thr[t].blockedBy.None? {
      if !(e.Call? && e.tid == t) {
        CallingBefore(k, e, t);
      }
    }
  }

  lemma CallingBefore(k: Kernel, e: Event, t: Tid)
    requires Sound(k) && Enabled(k, e) && !e.Micro? && Calling(Next(k, e), t) && !(e.Call? && e.tid == t)
    ensures Calling(k, t)
  {
    if t in k.ctl {
      assert CtlOk(k, t);
    }
  }

  lemma NextOrderly(k: Kernel, e: Event)
    requires Sound(k) && Orderly(k) && Enabled(k, e) && Guard(k, e)
    ensures Orderly(Next(k, e))
  {
    if e.Micro? {
      MicroFacts(k, e.pipe);
      MovedOrderly(k, e.pipe, Next(k, e).sys, Advance(k.pipes[e.pipe]));
    } else {
      OtherOrderly(k, e);
    }
  }

  lemma {:induction false} AlwaysOrderly(ks: seq<Kernel>, es: seq<Event>, k: nat)
    requires IsRun(ks, es) && Guarded(ks, es) && k < |ks|
    ensures Sound(ks[k]) && Orderly(ks[k])
  {
    AlwaysSound(ks, es, k);
    if k > 0 {
      AlwaysOrderly(ks, es, k - 1);
      NextOrderly(ks[k - 1], es[k - 1]);
    }
  }

  /** With the guard each thread is still to be notified in at most one list of one pipe, and only once there. */
  lemma OneWaitingPlace(ks: seq<Kernel>, es: seq<Event>, k: nat, p: PipeId, q: PipeId, i: nat, j: nat)
    requires IsRun(ks, es) && Guarded(ks, es) && k < |ks|
    requires p in ks[k].pipes && q in ks[k].pipes
    requires i < |Pending(ks[k].pipes[p])| && j < |Pending(ks[k].pipes[q])|
    requires Pending(ks[k].pipes[p])[i] == Pending(ks[k].pipes[q])[j]
    ensures p == q && i == j
  {
    AlwaysOrderly(ks, es, k);
    var t := Pending(ks[k].pipes[p])[i];
    assert WaitsOnce(ks[k], p) && WaitsOnce(ks[k], q);
    assert WaitsFor(ks[k], p, t) && WaitsFor(ks[k], q, t);
    if AtBlock(ks[k], p, t) {
      AtBlockIsCalling(ks[k], p, t);
    }
    if AtBlock(ks[k], q, t) {
      AtBlockIsCalling(ks[k], q, t);
    }
    assert i < j || j < i || i == j;
  }

  // ---------------------------------------------------------------------------------------------
  // A waiting thread is not run

  /** `t` waits on this side of the pipe, and nobody has gone through the other side since. */
  ghost predicate Parked(k: Kernel, id: PipeId, t: Tid, reading: bool) {
    && id in k.pipes && t in k.sys.thr && k.sys.thr[t].blockedBy == Some(id)
    && var p := k.pipes[id];
       && t in (if reading then p.readers else p.writers)
       && !(p.crit.Held? && p.crit.pc.Notify? && p.crit.op.WriteOp? == reading)
  }

  /** The event is the update that makes a write (or, for waiting writers, a read) of the pipe count. */
  ghost predicate GoesThrough(k: Kernel, e: Event, id: PipeId, reading: bool) {
    && e == Micro(id) && id in k.pipes && k.pipes[id].crit.Held?
    && (if reading then k.pipes[id].crit.pc.Head? else k.pipes[id].crit.pc.Tail?)
  }

  lemma ParkedNotCalling(k: Kernel, id: PipeId, t: Tid, reading: bool)
    requires Sound(k) && Orderly(k) && Parked(k, id, t, reading)
    ensures !Calling(k, t)
    ensures forall j :: j in k.pipes && k.pipes[j].crit.Held? && !k.pipes[j].crit.pc.Unlock? ==>
                          k.pipes[j].crit.tid != t
  {
    forall j | j in k.pipes && k.pipes[j].crit.Held? && !k.pipes[j].crit.pc.Unlock? ensures k.pipes[j].crit.tid != t {
      HolderIsCalling(k, j);
    }
  }

  /** The updates that could take a parked thread off its list, or start notifying it. */
  lemma ListKept(p: Pipe, t: Tid, reading: bool)
    requires PipeOk(p) && p.crit.Held?
    requires t in (if reading then p.readers else p.writers)
    requires !(p.crit.pc.Notify? && p.crit.op.WriteOp? == reading)
    requires !(if reading then p.crit.pc.Head? else p.crit.pc.Tail?)
    ensures t in (if reading then Advance(p).readers else Advance(p).writers)
    ensures !(Advance(p).crit.Held? && Advance(p).crit.pc.Notify? && Advance(p).crit.op.WriteOp? == reading)
    ensures Woken(p) != Some(t)
  {
  }

  lemma NextParked(k: Kernel, e: Event, id: PipeId, t: Tid, reading: bool)
    requires Sound(k) && Orderly(k) && Enabled(k, e) && Parked(k, id, t, reading)
    requires !GoesThrough(k, e, id, reading)
    ensures Parked(Next(k, e), id, t, reading)
  {
    if e == Micro(id) {
      UpdateParked(k, id, t, reading);
    } else if e.Micro? {
      OtherParked(k, e.pipe, id, t, reading);
    } else if e.Sched? {
      SchedKeepsBlocked(k, e.event);
    } else {
      ParkedNotCalling(k, id, t, reading);
    }
  }

  lemma UpdateParked(k: Kernel, id: PipeId, t: Tid, reading: bool)
    requires Sound(k) && Orderly(k) && Enabled(k, Micro(id)) && Parked(k, id, t, reading)
    requires !GoesThrough(k, Micro(id), id, reading)
    ensures Parked(Next(k, Micro(id)), id, t, reading)
  {
    MicroFacts(k, id);
    assert PipeOk(k.pipes[id]);
    ListKept(k.pipes[id], t, reading);
  }

  lemma OtherParked(k: Kernel, j: PipeId, id: PipeId, t: Tid, reading: bool)
    requires Sound(k) && Orderly(k) && Enabled(k, Micro(j)) && j != id && Parked(k, id, t, reading)
    ensures Parked(Next(k, Micro(j)), id, t, reading)
  {
    MicroFacts(k, j);
    ParkedNotCalling(k, id, t, reading);
    if Woken(k.pipes[j]).Some? {
      WokenWaits(k, j);
    }
  }

  lemma {:induction false} ParkedRun(ks: seq<Kernel>, es: seq<Event>, id: PipeId, t: Tid, reading: bool, i: nat, j: nat)
    requires IsRun(ks, es) && Guarded(ks, es) && i <= j < |ks|
    requires Parked(ks[i], id, t, reading)
    requires forall m :: i <= m < j ==> !GoesThrough(ks[m], es[m], id, reading)
    ensures Parked(ks[j], id, t, reading)
    decreases j
  {
    if j > i {
      var m := j - 1;
      ParkedRun(ks, es, id, t, reading, i, m);
      ParkedStep(ks, es, id, t, reading, m, j);
    }
  }

  lemma ParkedStep(ks: seq<Kernel>, es: seq<Event>, id: PipeId, t: Tid, reading: bool, m: nat, j: nat)
    requires IsRun(ks, es) && Guarded(ks, es) && j == m + 1 < |ks| && Parked(ks[m], id, t, reading)
    requires !GoesThrough(ks[m], es[m], id, reading)
    ensures Parked(ks[j], id, t, reading)
  {
    AlwaysOrderly(ks, es, m);
    NextParked(ks[m], es[m], id, t, reading);
  }

  /** The update by which a thread marks itself blocked leaves it parked. */
  lemma BlockParks(k: Kernel, id: PipeId)
    requires Sound(k) && Enabled(k, Micro(id)) && k.pipes[id].crit.pc.Block?
    ensures Parked(Next(k, Micro(id)), id, k.pipes[id].crit.tid, k.pipes[id].crit.op.ReadOp?)
    ensures PipeOk(k.pipes[id])
    ensures k.pipes[id].crit.result == if k.pipes[id].crit.op.ReadOp? then PipeEmpty else PipeFull
  {
    MicroFacts(k, id);
    assert PipeOk(k.pipes[id]);
    HolderIsCalling(k, id);
  }

  lemma {:induction false} SystemAlwaysExclusive(ks: seq<Kernel>, es: seq<Event>, k: nat)
    requires IsRun(ks, es) && k < |ks|
    ensures Runs.Listed(ks[k].sys) && Runs.Exclusive(ks[k].sys)
  {
    if k > 0 {
      SystemAlwaysExclusive(ks, es, k - 1);
      var s, e := ks[k - 1].sys, es[k - 1];
      if e.Sched? {
        Runs.NextExclusive(s, e.event);
      } else if e.Micro? {
        var p := ks[k - 1].pipes[e.pipe];
        if p.crit.pc.Block? && p.crit.tid in s.thr {
          Runs.NextExclusive(s, Runs.Block(p.crit.tid, e.pipe));
        } else if Woken(p).Some? && Woken(p).value in s.thr {
          Runs.NextExclusive(s, Runs.Wake(Woken(p).value));
        }
      }
    }
  }

  lemma PassSkipsBlocked(s: S.Sys, cpu: nat, t: Tid)
    requires Runs.Listed(s) && Runs.Exclusive(s) && cpu < |s.cur| && t in s.thr && s.thr[t].blockedBy.Some?
    ensures S.Selected(s, cpu) != Some(t)
  {
    if S.Selected(s, cpu).Some? {
      Runs.PassFacts(s, cpu);
    }
  }

  /**
   Blocking safety: at step `i` a thread marks itself blocked, about to return PIPE_EMPTY (or PIPE_FULL) from pipe
   `id`. As long as no write (or read) of that pipe goes through, the thread stays blocked by it, and a pass of any
   CPU from any later state does not take it.
   */
  lemma BlockedUntilPipeChanges(ks: seq<Kernel>, es: seq<Event>, id: PipeId, i: nat, j: nat, cpu: nat)
    requires IsRun(ks, es) && Guarded(ks, es) && i < j < |ks|
    requires es[i] == Micro(id) && id in ks[i].pipes && ks[i].pipes[id].crit.Held? && ks[i].pipes[id].crit.pc.Block?
    requires forall m :: i < m < j ==> !GoesThrough(ks[m], es[m], id, ks[i].pipes[id].crit.op.ReadOp?)
    requires cpu < |ks[j].sys.cur|
    ensures var t := ks[i].pipes[id].crit.tid;
            && t in ks[j].sys.thr && ks[j].sys.thr[t].blockedBy == Some(id)
            && S.Selected(ks[j].sys, cpu) != Some(t)
    ensures ks[i].pipes[id].crit.result == if ks[i].pipes[id].crit.op.ReadOp? then PipeEmpty else PipeFull
  {
    var t, reading := ks[i].pipes[id].crit.tid, ks[i].pipes[id].crit.op.ReadOp?;
    AlwaysSound(ks, es, i);
    BlockParks(ks[i], id);
    ParkedRun(ks, es, id, t, reading, i + 1, j);
    SystemAlwaysExclusive(ks, es, j);
    PassSkipsBlocked(ks[j].sys, cpu, t);
  }
}
