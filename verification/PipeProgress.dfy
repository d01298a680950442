/**
 Every pipe operation that has the lock comes to its end: whatever the other threads, pipes and CPUs do in between,
 a fixed number of its own updates is enough.
 */
module PipeProgress {
  import opened Types
  import opened PipeSpec
  import opened PipeSteps
  import opened KernelMachine

  /** How many of the events from `i` to `j` are updates of pipe `id`. */
  ghost function UpdatesOf(es: seq<Event>, id: PipeId, i: nat, j: nat): nat
    requires i <= j <= |es|
    decreases j
  {
    if i == j then 0 else UpdatesOf(es, id, i, j - 1) + if es[j - 1] == Micro(id) then 1 else 0
  }

  ghost predicate HeldBy(k: Kernel, id: PipeId, t: Tid) {
    id in k.pipes && k.pipes[id].crit.Held? && k.pipes[id].crit.tid == t
  }

  /** The step before `m` unlocked the pipe, and thread `t` is on its way back with its result. */
  ghost predicate Ended(ks: seq<Kernel>, es: seq<Event>, id: PipeId, t: Tid, m: nat)
    requires 0 < m < |ks| == |es| + 1
  {
    && es[m - 1] == Micro(id) && HeldBy(ks[m - 1], id, t)
    && id in ks[m].pipes && ks[m].pipes[id].crit.Free? && t in ks[m].ctl && ks[m].ctl[t].Back?
  }

  /** An event either leaves the held pipe alone or is its holder's next update. */
  lemma HolderStep(k: Kernel, e: Event, id: PipeId, t: Tid)
    requires Sound(k) && Enabled(k, e) && HeldBy(k, id, t)
    ensures var k' := Next(k, e);
            if e != Micro(id) then HeldBy(k', id, t) && StepsLeft(k'.pipes[id]) == StepsLeft(k.pipes[id])
            else if StepsLeft(k.pipes[id]) > 1 then
              HeldBy(k', id, t) && StepsLeft(k'.pipes[id]) + 1 == StepsLeft(k.pipes[id])
            else id in k'.pipes && k'.pipes[id].crit.Free? && t in k'.ctl && k'.ctl[t].Back?
  {
    if e == Micro(id) {
      assert PipeOk(k.pipes[id]);
      AdvanceProceeds(k.pipes[id]);
      AdvanceRefines(k.pipes[id]);
    } else if e.Acquire? {
      assert k.ctl[e.tid].pipe != id;
    }
  }

  lemma {:induction false} EndedOrNearer(ks: seq<Kernel>, es: seq<Event>, id: PipeId, t: Tid, i: nat, j: nat)
    requires IsRun(ks, es) && i <= j < |ks| && HeldBy(ks[i], id, t)
    ensures || (exists m :: i < m <= j && Ended(ks, es, id, t, m))
            || (HeldBy(ks[j], id, t)
                && StepsLeft(ks[j].pipes[id]) + UpdatesOf(es, id, i, j) == StepsLeft(ks[i].pipes[id]))
    decreases j
  {
    if i < j {
      EndedOrNearer(ks, es, id, t, i, j - 1);
      if HeldBy(ks[j - 1], id, t) {
        StepEnds(ks, es, id, t, j - 1);
      }
    }
  }

  lemma StepEnds(ks: seq<Kernel>, es: seq<Event>, id: PipeId, t: Tid, j: nat)
    requires IsRun(ks, es) && j < |es| && HeldBy(ks[j], id, t)
    ensures || Ended(ks, es, id, t, j + 1)
            || (HeldBy(ks[j + 1], id, t)
                && StepsLeft(ks[j + 1].pipes[id]) + (if es[j] == Micro(id) then 1 else 0) == StepsLeft(ks[j].pipes[id]))
  {
    AlwaysSound(ks, es, j);
    HolderStep(ks[j], es[j], id, t);
  }

  /**
   In every run, an operation that has the lock at step `i` is over by step `j`, lock given back and result in
   hand, if by then the pipe has seen as many updates as the operation had left; and its next update is always
   possible and never out of place.
   */
  lemma OperationEndsInRun(ks: seq<Kernel>, es: seq<Event>, id: PipeId, t: Tid, i: nat, j: nat)
    requires IsRun(ks, es) && i <= j < |ks| && HeldBy(ks[i], id, t)
    requires UpdatesOf(es, id, i, j) >= StepsLeft(ks[i].pipes[id])
    ensures exists m :: i < m <= j && Ended(ks, es, id, t, m)
    ensures Enabled(ks[i], Micro(id)) && Runnable(ks[i].pipes[id])
  {
    AlwaysSound(ks, es, i);
    AlwaysRunnable(ks[i].pipes[id]);
    EndedOrNearer(ks, es, id, t, i, j);
    if HeldBy(ks[j], id, t) {
      AlwaysSound(ks, es, j);
      assert PipeOk(ks[j].pipes[id]);
      AdvanceProceeds(ks[j].pipes[id]);
    }
  }

  /** How far a thread is from the end of its call: the phases still before it. */
  function Phase(c: Ctl): nat {
    match c
    case Called(_, _) => 4
    case Wants(_, _) => 3
    case Inside(_) => 2
    case Back(_) => 1
    case Out => 0
  }

  /** The event is a step of the call that `t` is in. */
  predicate StepOf(k: Kernel, e: Event, t: Tid) {
    match e
    case Lookup(u) => u == t
    case Acquire(u) => u == t
    case Return(u) => u == t
    case Micro(id) => id in k.pipes && k.pipes[id].crit.Held? && k.pipes[id].crit.tid == t
    case _ => false
  }

  /** The call's own steps bring it on, by a phase or by an update under the lock; no step of others sets it back. */
  lemma CallMovesOn(k: Kernel, e: Event, t: Tid)
    requires Sound(k) && Enabled(k, e) && t in k.ctl && !k.ctl[t].Out?
    ensures t in Next(k, e).ctl
    ensures !StepOf(k, e, t) ==> Next(k, e).ctl[t] == k.ctl[t]
    ensures StepOf(k, e, t) && !e.Micro? ==> Phase(Next(k, e).ctl[t]) < Phase(k.ctl[t])
    ensures StepOf(k, e, t) && e.Micro? ==>
              && k.ctl[t] == Inside(e.pipe)
              && if StepsLeft(k.pipes[e.pipe]) > 1 then
                   Next(k, e).ctl[t] == k.ctl[t] && StepsLeft(Next(k, e).pipes[e.pipe]) < StepsLeft(k.pipes[e.pipe])
                 else Next(k, e).ctl[t].Back?
    ensures e == Acquire(t) ==> HeldBy(Next(k, e), k.ctl[t].pipe, t)
                                && Next(k, e).pipes[k.ctl[t].pipe].crit.op == k.ctl[t].op
  {
    if e.Micro? {
      assert PipeOk(k.pipes[e.pipe]) && HolderKnown(k, e.pipe);
      HolderStep(k, e, e.pipe, k.pipes[e.pipe].crit.tid);
    }
  }

  /** A call can always take its next step, except that it waits for the pipe's lock while another call has it. */
  lemma CallCanGoOn(k: Kernel, t: Tid) returns (e: Event)
    requires Sound(k) && t in k.ctl && !k.ctl[t].Out?
    ensures StepOf(k, e, t)
    ensures Enabled(k, e) || (k.ctl[t].Wants? && k.ctl[t].pipe in k.pipes && k.pipes[k.ctl[t].pipe].crit.Held?)
  {
    assert CtlOk(k, t);
    e := match k.ctl[t]
         case Called(_, _) => Lookup(t)
         case Wants(_, _) => Acquire(t)
         case Inside(id) => Micro(id)
         case _ => Return(t);
  }
}
