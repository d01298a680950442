/**
 What the calls have come to, over whole runs: which result each call brings back, and which messages have been
 written and read.
 */
module PipeHistory {
  import opened Types
  import opened PipeSpec
  import opened PipeSteps
  import opened KernelMachine

  // ---------------------------------------------------------------------------------------------
  // Calls and results

  /** No return of `t` falls between event `i` and `k`. */
  ghost predicate Within(es: seq<Event>, i: nat, k: nat, t: Tid) {
    i < k <= |es| && forall m :: i < m < k ==> es[m] != Return(t)
  }

  /** With event `m` the call of `t` takes effect on the atomic queues, with this result. */
  ghost predicate EffectAt(ks: seq<Kernel>, m: nat, t: Tid, id: PipeId, op: Op, r: Result)
    requires m + 1 < |ks|
  {
    && Sound(ks[m]) && Sound(ks[m + 1])
    && var a, a' := Abstract(ks[m]), Abstract(ks[m + 1]);
       && t in a.status && a.status[t] == Asking(id, op) && Performs(a, a', t)
       && t in a'.status && a'.status[t] == Answered(r)
  }

  ghost predicate TookEffect(ks: seq<Kernel>, i: nat, k: nat, t: Tid, id: PipeId, op: Op, r: Result)
    requires k < |ks|
  {
    exists m: nat :: i < m < k && EffectAt(ks, m, t, id, op, r)
  }

  /** A thread in a call is still asking, or its operation has taken effect. */
  ghost predicate Calling(ks: seq<Kernel>, i: nat, k: nat, t: Tid, id: PipeId, op: Op)
    requires k < |ks|
  {
    && Sound(ks[k]) && t in Abstract(ks[k]).status
    && match Abstract(ks[k]).status[t]
       case Idle => false
       case Asking(p, o) => p == id && o == op
       case Answered(r) => TookEffect(ks, i, k, t, id, op, r)
  }

  /** What a step of the atomic machine does to a thread that neither calls nor returns. */
  lemma StatusStep(a: Atomic, a': Atomic, seen: Label, t: Tid)
    requires AtomicStep(a, a', seen) && t in a.status && !a.status[t].Idle?
    requires seen.Respond? ==> seen.tid != t
    ensures t in a'.status
    ensures a'.status[t] == a.status[t] || (a.status[t].Asking? && Performs(a, a', t) && a'.status[t].Answered?)
  {
  }

  lemma CallStep(ks: seq<Kernel>, es: seq<Event>, i: nat, k: nat, n: nat, t: Tid, id: PipeId, op: Op)
    requires IsRun(ks, es) && i < k < |es| && n == k + 1 && es[k] != Return(t) && Calling(ks, i, k, t, id, op)
    ensures Calling(ks, i, n, t, id, op)
  {
    Linearizable(ks, es, k);
    var a, a' := Abstract(ks[k]), Abstract(ks[n]);
    StatusStep(a, a', LabelOf(ks[k], es[k]), t);
    if a.status[t].Answered? {
      assert a'.status[t] == a.status[t];
    } else if a'.status[t].Answered? {
      assert EffectAt(ks, k, t, id, op, a'.status[t].result);
    }
  }

  lemma CallStarts(ks: seq<Kernel>, es: seq<Event>, i: nat, k: nat, t: Tid, id: PipeId, op: Op)
    requires IsRun(ks, es) && i < |es| && k == i + 1 && es[i] == Call(t, id, op)
    ensures Calling(ks, i, k, t, id, op)
  {
    Linearizable(ks, es, i);
    InvokeStep(Abstract(ks[i]), Abstract(ks[k]), t, id, op);
  }

  lemma InvokeStep(a: Atomic, a': Atomic, t: Tid, id: PipeId, op: Op)
    requires AtomicStep(a, a', Invoke(t, id, op))
    ensures t in a'.status && a'.status[t] == Asking(id, op)
  {
  }

  lemma {:induction false} CallRuns(ks: seq<Kernel>, es: seq<Event>, i: nat, k: nat, t: Tid, id: PipeId, op: Op)
    requires IsRun(ks, es) && Within(es, i, k, t) && es[i] == Call(t, id, op)
    ensures Calling(ks, i, k, t, id, op)
    decreases k
  {
    if k == i + 1 {
      CallStarts(ks, es, i, k, t, id, op);
    } else {
      var m := k - 1;
      CallRuns(ks, es, i, m, t, id, op);
      CallStep(ks, es, i, m, k, t, id, op);
    }
  }

  /**
   The result of every call: what a call brings back is what the atomic queue answered to its own operation, at one
   moment between the call and the return.
   */
  lemma CallResult(ks: seq<Kernel>, es: seq<Event>, i: nat, j: nat, t: Tid, id: PipeId, op: Op)
    requires IsRun(ks, es) && Within(es, i, j, t) && es[i] == Call(t, id, op)
    requires j < |es| && es[j] == Return(t)
    ensures t in ks[j].ctl && ks[j].ctl[t].Back? && TookEffect(ks, i, j, t, id, op, ks[j].ctl[t].result)
    ensures t in ks[j + 1].ctl && ks[j + 1].ctl[t].Out?
  {
    CallRuns(ks, es, i, j, t, id, op);
    assert Enabled(ks[j], es[j]) && ks[j + 1] == Next(ks[j], es[j]);
  }

  // ---------------------------------------------------------------------------------------------
  // Messages

  /** Event `k` is the test of an operation on the pipe. */
  ghost predicate TestAt(ks: seq<Kernel>, es: seq<Event>, k: nat, id: PipeId)
    requires k < |es| < |ks|
  {
    && es[k] == Micro(id)
    && id in ks[k].pipes && ks[k].pipes[id].crit.Held? && ks[k].pipes[id].crit.pc.Test?
    && id in ks[k + 1].pipes && PipeOk(ks[k + 1].pipes[id]) && ks[k + 1].pipes[id].crit.Held?
  }

  /** The messages of the writes that went through, in the order in which they took effect. */
  ghost function Written(ks: seq<Kernel>, es: seq<Event>, k: nat, id: PipeId): seq<Message>
    requires k <= |es| < |ks|
    decreases k
  {
    if k == 0 then [] else
      Written(ks, es, k - 1, id)
      + if TestAt(ks, es, k - 1, id) then PutBy(ks[k - 1].pipes[id].crit.op, Outcome(ks[k].pipes[id])) else []
  }

  /** The messages that reads brought back, in that order. */
  ghost function Fetched(ks: seq<Kernel>, es: seq<Event>, k: nat, id: PipeId): seq<Message>
    requires k <= |es| < |ks|
    decreases k
  {
    if k == 0 then [] else
      Fetched(ks, es, k - 1, id) + if TestAt(ks, es, k - 1, id) then TakenBy(Outcome(ks[k].pipes[id])) else []
  }

  ghost predicate Logged(ks: seq<Kernel>, es: seq<Event>, k: nat, id: PipeId)
    requires k <= |es| < |ks|
  {
    if id in ks[k].pipes then
      ks[k].pipes[id].sent == Written(ks, es, k, id) && ks[k].pipes[id].received == Fetched(ks, es, k, id)
    else
      Written(ks, es, k, id) == [] && Fetched(ks, es, k, id) == []
  }

  /** Only the pipe's own updates write its history. */
  lemma OthersLog(k: Kernel, e: Event, id: PipeId)
    requires Enabled(k, e) && e != Micro(id)
    ensures id in k.pipes ==> id in Next(k, e).pipes && Next(k, e).pipes[id].sent == k.pipes[id].sent
                              && Next(k, e).pipes[id].received == k.pipes[id].received
    ensures id !in k.pipes && id in Next(k, e).pipes ==>
              Next(k, e).pipes[id].sent == [] && Next(k, e).pipes[id].received == []
  {
  }

  lemma UpdateLog(ks: seq<Kernel>, es: seq<Event>, k: nat, id: PipeId)
    requires IsRun(ks, es) && k < |es| && Logged(ks, es, k, id) && es[k] == Micro(id)
    ensures Logged(ks, es, k + 1, id)
  {
    AlwaysSound(ks, es, k);
    MicroFacts(ks[k], id);
    var p := ks[k].pipes[id];
    assert PipeOk(p) && ks[k + 1].pipes[id] == Advance(p);
    AdvanceLogs(p);
  }

  lemma LogStep(ks: seq<Kernel>, es: seq<Event>, k: nat, id: PipeId)
    requires IsRun(ks, es) && k < |es| && Logged(ks, es, k, id)
    ensures Logged(ks, es, k + 1, id)
  {
    if es[k] == Micro(id) {
      UpdateLog(ks, es, k, id);
    } else {
      assert Enabled(ks[k], es[k]) && ks[k + 1] == Next(ks[k], es[k]);
      OthersLog(ks[k], es[k], id);
    }
  }

  lemma {:induction false} AlwaysLogged(ks: seq<Kernel>, es: seq<Event>, k: nat, id: PipeId)
    requires IsRun(ks, es) && k <= |es|
    ensures Logged(ks, es, k, id)
  {
    if k > 0 {
      AlwaysLogged(ks, es, k - 1, id);
      LogStep(ks, es, k - 1, id);
    }
  }

  /**
   Conservation and order, on a pipe that does not purge: what was written is what was read followed by the queue,
   in every reachable state; with the lock free the queue is the ring's content.
   */
  lemma Conservation(ks: seq<Kernel>, es: seq<Event>, k: nat, id: PipeId)
    requires IsRun(ks, es) && k <= |es| && id in ks[k].pipes && !ks[k].pipes[id].ring.purge
    ensures var p := ks[k].pipes[id];
            && PipeOk(p) && Written(ks, es, k, id) == Fetched(ks, es, k, id) + Queue(p)
            && (p.crit.Free? ==> Written(ks, es, k, id) == Fetched(ks, es, k, id) + Content(p.ring))
  {
    AlwaysSound(ks, es, k);
    AlwaysLogged(ks, es, k, id);
  }

  /** A pipe that nobody has read holds exactly the last messages written, as many as fit. */
  lemma KeepsLatest(ks: seq<Kernel>, es: seq<Event>, k: nat, id: PipeId)
    requires IsRun(ks, es) && k <= |es| && id in ks[k].pipes && Fetched(ks, es, k, id) == []
    ensures PipeOk(ks[k].pipes[id])
    ensures Queue(ks[k].pipes[id]) == Latest(Written(ks, es, k, id), Capacity(ks[k].pipes[id].ring))
  {
    AlwaysSound(ks, es, k);
    AlwaysLogged(ks, es, k, id);
  }
}
