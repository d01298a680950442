/**
 The process manager in its own form: threads, processes and the manager are objects updated in place,
 and the two scanning loops are loops. Each method is proved against `SchedulerSpec`.
 */
module ProcessManager {
  import opened Types
  import Spec = SchedulerSpec
  import Runs = SchedulerRuns

  class Thread {
    const id: Tid
    const priority: SizeT
    var affinity: Spec.Affinity
    var ready: bool
    var running: bool
    var blockedBy: Option<PipeId>
    var sleepTicks: SizeT

    /** `sleepTicks` is a parameter because `pm_thread_create` leaves the field as the allocator returned it. */
    constructor (id: Tid, priority: SizeT, sleepTicks: SizeT)
      ensures this.id == id
      ensures View() == Spec.Thread(priority, Spec.AnyCore, true, false, None, sleepTicks)
    {
      this.id := id;
      this.priority := priority;
      this.affinity := Spec.AnyCore;
      this.ready := true;
      this.running := false;
      this.blockedBy := None;
      this.sleepTicks := sleepTicks;
    }

    function View(): Spec.Thread
      reads this
    {
      Spec.Thread(priority, affinity, ready, running, blockedBy, sleepTicks)
    }

    /** The body of the inner loop up to the READY test. */
    method Visit(cpu: nat) returns (candidate: bool)
      modifies this
      ensures View() == Spec.Tick(old(View()), cpu)
      ensures candidate == Spec.Candidate(View(), cpu)
    {
      candidate := false;
      if affinity.AnyCore? || cpu in affinity.mask {
        ready := true;
        if sleepTicks != 0 { sleepTicks := sleepTicks - 1; }
        if blockedBy != None { ready := false; }
        if sleepTicks != 0 { ready := false; }
        if running { ready := false; }
        candidate := ready;
      }
    }

    /** The sleep system call; a zero count is refused and changes nothing. */
    method Sleep(maxCpus: SizeT, ticks: SizeT) returns (result: int)
      modifies this`sleepTicks
      ensures result == if ticks == 0 then SYSCALL_RESULT_ERROR else SYSCALL_RESULT_OK
      ensures sleepTicks == if ticks == 0 then old(sleepTicks) else Runs.SleepTicksFor(maxCpus, ticks)
    {
      if ticks == 0 {
        return SYSCALL_RESULT_ERROR;
      }
      var next: SizeT := (ticks + 1) % (SIZE_MAX + 1);
      sleepTicks := (maxCpus * next) % (SIZE_MAX + 1);
      return SYSCALL_RESULT_OK;
    }
  }

  class Process {
    var threads: seq<Thread>

    constructor ()
      ensures threads == []
    {
      threads := [];
    }
  }

  class Manager {
    var processes: seq<Process>
    const current: array<Thread?>
    // the abstract state: every thread by its address, and both lists as the scheduler's specification sees them
    ghost var byId: map<Tid, Thread>
    ghost var procs: seq<seq<Tid>>
    ghost var cur: seq<Option<Tid>>

    ghost predicate Valid()
      reads this, processes, current
    {
      && (forall t :: t in byId ==> byId[t].id == t)
      && |procs| == |processes| && |cur| == current.Length
      && (forall i :: 0 <= i < |processes| ==> Lists(processes[i].threads, procs[i]))
      && (forall i, j :: 0 <= i < j < |processes| ==> processes[i] != processes[j])
      && (forall c :: 0 <= c < |cur| ==> Names(current[c], cur[c]))
      && Spec.Partitioned(procs)
    }

    ghost predicate Known(t: Thread)
      reads this
    {
      t.id in byId && byId[t.id] == t
    }

    ghost predicate Lists(threads: seq<Thread>, ids: seq<Tid>)
      reads this
    {
      |threads| == |ids| && forall j :: 0 <= j < |ids| ==> Known(threads[j]) && threads[j].id == ids[j]
    }

    ghost predicate Names(t: Thread?, id: Option<Tid>)
      reads this
    {
      if t == null then id.None? else Known(t) && id == Some(t.id)
    }

    ghost function Objects(): set<Thread>
      reads this
    {
      byId.Values
    }

    ghost function Records(): Spec.Threads
      reads this, Objects()
    {
      map t | t in byId :: byId[t].View()
    }

    ghost function Model(): Spec.Sys
      reads this, Objects()
    {
      Spec.Sys(procs, Records(), cur)
    }

    lemma ModelListed()
      requires Valid()
      ensures Runs.Listed(Model())
    {
    }

    constructor (maxCpus: nat)
      ensures Valid() && fresh(current)
      ensures Model() == Runs.Boot(maxCpus)
    {
      processes := [];
      current := new Thread?[maxCpus](_ => null);
      byId, procs := map[], [];
      cur := seq(maxCpus, _ => None);
    }

    method VisitThread(t: Thread, cpu: nat) returns (candidate: bool)
      requires forall i :: i in byId ==> byId[i].id == i
      requires Known(t)
      modifies t
      ensures Records() == old(Records())[t.id := Spec.Tick(old(Records())[t.id], cpu)]
      ensures candidate == Spec.Candidate(Spec.Tick(old(Records())[t.id], cpu), cpu)
    {
      candidate := t.Visit(cpu);
    }

    /** `process_scheduler_run` for PM_SCHEDULER_PRIORITY: one thread list, from front to back. */
    method ProcessSchedulerRun(prc: Process, cpu: nat, ghost ids: seq<Tid>) returns (selected: Thread?)
      requires forall t :: t in byId ==> byId[t].id == t
      requires Lists(prc.threads, ids) && Spec.Distinct(ids)
      modifies Objects()
      ensures Records() == Spec.ScanIds(old(Records()), ids, cpu)
      ensures Names(selected, Spec.BestOf(Records(), ids, cpu))
    {
      selected := null;
      var max: SizeT := SIZE_MAX;
      var k := 0;
      ghost var before := Records();
      ghost var after := Spec.ScanIds(before, ids, cpu);
      assert ids[..0] == [];
      var threads := prc.threads;
      while k < |threads|
        invariant k <= |threads|
        invariant Records() == Spec.ScanIds(before, ids[..k], cpu)
        invariant Names(selected, Spec.BestOf(after, ids[..k], cpu))
        invariant max == Spec.Limit(after, Spec.BestOf(after, ids[..k], cpu))
      {
        var t := threads[k];
        assert Known(t) && t.id == ids[k] && t in Objects();
        var candidate := VisitThread(t, cpu);
        VisitStep(before, ids, k, cpu);
        if candidate && t.priority < max {
          selected := t;
          max := t.priority;
        }
        k := k + 1;
      }
      assert ids[..k] == ids;
    }

    /** Visiting one more thread extends the scan, and compares that thread with the best so far. */
    static lemma VisitStep(before: Spec.Threads, ids: seq<Tid>, k: nat, cpu: nat)
      requires k < |ids| && Spec.Distinct(ids) && ids[k] in before
      ensures var now, t := Spec.ScanIds(before, ids[..k], cpu), ids[k];
              && now[t] == before[t]
              && now[t := Spec.Tick(before[t], cpu)] == Spec.ScanIds(before, ids[..k + 1], cpu)
      ensures var after, t := Spec.ScanIds(before, ids, cpu), ids[k];
              var best := Spec.BestOf(after, ids[..k], cpu);
              && after[t] == Spec.Tick(before[t], cpu)
              && Spec.BestOf(after, ids[..k + 1], cpu)
                 == if Spec.Candidate(after[t], cpu) && after[t].priority < Spec.Limit(after, best)
                    then Some(t) else best
    {
      var t := ids[k];
      assert ids[..k + 1] == ids[..k] + [t];
      assert t in ids && t !in ids[..k];
    }

    /** The CPU's current thread gives up its RUNNING flag. */
    method ReleaseCurrent(cpu: nat)
      requires Valid() && cpu < current.Length
      modifies Objects()
      ensures Valid()
      ensures Records() == Spec.Release(old(Model()), cpu)
    {
      assert Names(current[cpu], cur[cpu]);
      if current[cpu] != null {
        current[cpu].running := false;
      }
    }

    /** The outer loop's state after `k` processes: their threads visited, and the best of their choices known. */
    ghost predicate ScannedTo(before: Spec.Threads, k: nat, cpu: nat, selected: Thread?, max: SizeT)
      requires k <= |procs|
      reads this, Objects()
    {
      var best := Spec.SelectOf(Spec.ScanIds(before, Spec.Flat(procs), cpu), procs[..k], cpu);
      && Records() == Spec.ScanIds(before, Spec.Flat(procs[..k]), cpu)
      && Names(selected, best) && max == Spec.Limit(Spec.ScanIds(before, Spec.Flat(procs), cpu), best)
    }

    /** The body of the outer loop: scan one process, and compare its choice with the best so far. */
    method ScanProcess(k: nat, cpu: nat, best: Thread?, bound: SizeT, ghost before: Spec.Threads)
      returns (selected: Thread?, max: SizeT)
      requires Valid() && k < |processes| && ScannedTo(before, k, cpu, best, bound)
      modifies Objects()
      ensures Valid() && ScannedTo(before, k + 1, cpu, selected, max)
    {
      ModelListed();
      assert Records().Keys == before.Keys;
      SelectStep(before, procs, k, cpu);
      selected, max := best, bound;
      var thread := ProcessSchedulerRun(processes[k], cpu, procs[k]);
      StillValid();
      if thread != null && thread.priority < max {
        selected := thread;
        max := thread.priority;
      }
    }

    /** The outer loop of `pm_thread_next_get`. */
    method ScanProcesses(cpu: nat) returns (selected: Thread?)
      requires Valid()
      modifies Objects()
      ensures Valid()
      ensures Records() == Spec.ScanIds(old(Records()), Spec.Flat(procs), cpu)
      ensures Names(selected, Spec.SelectOf(Records(), procs, cpu))
    {
      ghost var before := Records();
      selected := null;
      var max: SizeT := SIZE_MAX;
      var k := 0;
      ScanStarts(cpu);
      while k < |processes|
        invariant k <= |processes| && Valid() && ScannedTo(before, k, cpu, selected, max)
      {
        selected, max := ScanProcess(k, cpu, selected, max, before);
        k := k + 1;
      }
      ScanEnds(before, cpu, selected, max);
    }

    lemma ScanStarts(cpu: nat)
      ensures ScannedTo(Records(), 0, cpu, null, SIZE_MAX)
    {
      assert procs[..0] == [];
    }

    lemma ScanEnds(before: Spec.Threads, cpu: nat, selected: Thread?, max: SizeT)
      requires ScannedTo(before, |procs|, cpu, selected, max)
      ensures Records() == Spec.ScanIds(before, Spec.Flat(procs), cpu)
      ensures Names(selected, Spec.SelectOf(Records(), procs, cpu))
    {
      assert procs[..|procs|] == procs;
    }

    twostate lemma StillValid()
      requires old(Valid()) && unchanged(this) && unchanged(processes) && unchanged(current)
      ensures Valid()
    {
    }

    /** `pm_thread_next_get`. A null result is where the source would dereference NULL. */
    method ThreadNextGet(cpu: nat) returns (selected: Thread?)
      requires Valid() && cpu < current.Length
      modifies this`cur, current, Objects()
      ensures Valid()
      ensures Model() == Spec.Pass(old(Model()), cpu)
      ensures Names(selected, Spec.Selected(old(Model()), cpu))
      ensures selected != null ==> current[cpu] == selected && selected.running
    {
      ghost var s := Model();
      ReleaseCurrent(cpu);
      selected := ScanProcesses(cpu);
      assert Records() == Spec.Scanned(s, cpu);
      if selected != null {
        MakeCurrent(selected, cpu);
      }
    }

    method MakeCurrent(thread: Thread, cpu: nat)
      requires Valid() && cpu < current.Length && Known(thread)
      modifies this`cur, current, thread
      ensures Valid() && cur == old(cur)[cpu := Some(thread.id)]
      ensures Records() == old(Records())[thread.id := old(Records())[thread.id].(running := true)]
      ensures current[cpu] == thread && thread.running
    {
      current[cpu] := thread;
      cur := cur[cpu := Some(thread.id)];
      thread.running := true;
    }

    /**
     `pm_thread_create`, with the append to the thread list. A thread of a process that is on the process list is
     known to the scheduler at once, any other from the time its process is put there.
     */
    method ThreadCreate(prc: Process, id: Tid, priority: SizeT, sleepTicks: SizeT)
      returns (thread: Thread, ghost place: Option<nat>)
      requires Valid() && id !in byId
      modifies this`byId, this`procs, prc
      ensures Valid() && fresh(thread) && thread.id == id && prc.threads == old(prc.threads) + [thread]
      ensures thread.View() == Spec.Thread(priority, Spec.AnyCore, true, false, None, sleepTicks)
      ensures place.None? ==> prc !in processes && byId == old(byId) && Model() == old(Model())
      ensures place.Some? ==>
                && place.value < |processes| && processes[place.value] == prc && byId == old(byId)[id := thread]
                && Runs.Enabled(old(Model()), Runs.CreateThread(place.value, id, priority, sleepTicks))
                && Model() == Runs.Next(old(Model()), Runs.CreateThread(place.value, id, priority, sleepTicks))
    {
      thread := new Thread(id, priority, sleepTicks);
      place := None;
      if prc in processes {
        ghost var i: nat :| i < |processes| && processes[i] == prc;
        place := Some(i);
        AppendListed(prc, i, thread, priority, sleepTicks);
      } else {
        prc.threads := prc.threads + [thread];
      }
    }

    method AppendListed(prc: Process, ghost i: nat, thread: Thread, priority: SizeT, sleepTicks: SizeT)
      requires Valid() && i < |processes| && processes[i] == prc && thread.id !in byId
      requires thread.View() == Spec.Thread(priority, Spec.AnyCore, true, false, None, sleepTicks)
      modifies this`byId, this`procs, prc
      ensures Valid() && byId == old(byId)[thread.id := thread] && prc.threads == old(prc.threads) + [thread]
      ensures Runs.Enabled(old(Model()), Runs.CreateThread(i, thread.id, priority, sleepTicks))
      ensures Model() == Runs.Next(old(Model()), Runs.CreateThread(i, thread.id, priority, sleepTicks))
    {
      ghost var s := Model();
      ModelListed();
      Runs.CreateListed(s, Runs.CreateThread(i, thread.id, priority, sleepTicks));
      prc.threads := prc.threads + [thread];
      byId, procs := byId[thread.id := thread], procs[i := procs[i] + [thread.id]];
      CreatedValid(i, thread);
      assert Records() == s.thr[thread.id := thread.View()];
    }

    twostate lemma CreatedValid(i: nat, new thread: Thread)
      requires old(Valid()) && processes == old(processes) && i < |processes| && unchanged(current) && cur == old(cur)
      requires thread.id !in old(byId) && byId == old(byId)[thread.id := thread]
      requires processes[i].threads == old(processes[i].threads) + [thread]
      requires forall j :: 0 <= j < |processes| && j != i ==> unchanged(processes[j])
      requires procs == old(procs)[i := old(procs)[i] + [thread.id]] && Spec.Partitioned(procs)
      ensures Valid()
    {
    }

    /** A process whose threads are unknown to the scheduler and not running. */
    ghost predicate Unscheduled(prc: Process)
      reads this, prc, set t | t in prc.threads
    {
      && prc !in processes && Spec.Distinct(Ids(prc.threads))
      && forall j :: 0 <= j < |prc.threads| ==> prc.threads[j].id !in byId && !prc.threads[j].running
    }

    /** `pm_process_schedule`: the process goes to the end of the process list, with the threads it has by then. */
    method ProcessSchedule(prc: Process)
      requires Valid() && Unscheduled(prc)
      modifies this`processes, this`byId, this`procs
      ensures Valid() && processes == old(processes) + [prc]
      ensures Runs.Enabled(old(Model()), Runs.ScheduleProcess(Ids(prc.threads), Views(prc.threads)))
      ensures Model() == Runs.Next(old(Model()), Runs.ScheduleProcess(Ids(prc.threads), Views(prc.threads)))
    {
      ScheduleEnabled(prc);
      processes := processes + [prc];
      byId := byId + ById(prc.threads);
      procs := procs + [Ids(prc.threads)];
      ScheduledValid(prc);
      ScheduledRecords(prc);
    }

    lemma ScheduleEnabled(prc: Process)
      requires Valid() && Unscheduled(prc)
      ensures Runs.Enabled(Model(), Runs.ScheduleProcess(Ids(prc.threads), Views(prc.threads)))
      ensures Spec.Partitioned(procs + [Ids(prc.threads)])
      ensures forall t :: t in ById(prc.threads) ==> t !in byId
    {
      ViewsAt(prc.threads);
      ModelListed();
      Runs.CreateListed(Model(), Runs.ScheduleProcess(Ids(prc.threads), Views(prc.threads)));
    }

    twostate lemma ScheduledRecords(prc: Process)
      requires byId == old(byId) + ById(prc.threads) && unchanged(prc) && unchanged(old(Objects()))
      ensures Records() == old(Records()) + Views(prc.threads)
    {
    }

    twostate lemma ScheduledValid(prc: Process)
      requires old(Valid()) && Spec.Distinct(Ids(prc.threads)) && prc !in old(processes)
      requires unchanged(prc) && unchanged(current) && cur == old(cur)
      requires forall t :: t in ById(prc.threads) ==> t !in old(byId)
      requires forall p :: p in old(processes) ==> unchanged(p)
      requires processes == old(processes) + [prc] && byId == old(byId) + ById(prc.threads)
      requires procs == old(procs) + [Ids(prc.threads)] && Spec.Partitioned(procs)
      ensures Valid()
    {
      ViewsAt(prc.threads);
      var n := |old(processes)|;
      forall i | 0 <= i < |processes| ensures Lists(processes[i].threads, procs[i]) {
        if i < n {
          assert processes[i] == old(processes)[i] && processes[i] in old(processes);
          assert old(Lists(processes[i].threads, procs[i]));
        } else {
          assert processes[i] == prc && procs[i] == Ids(prc.threads);
        }
      }
    }

    /** With different ids, each thread of the list is found under its own. */
    static lemma ViewsAt(threads: seq<Thread>)
      requires Spec.Distinct(Ids(threads))
      ensures forall j :: 0 <= j < |threads| ==>
                threads[j].id in ById(threads) && ById(threads)[threads[j].id] == threads[j]
      ensures forall t :: t in ById(threads) ==> ById(threads)[t].id == t && ById(threads)[t] in threads
    {
      forall j | 0 <= j < |threads| ensures threads[j].id in Ids(threads) && Place(threads, threads[j].id) == j {
        assert Ids(threads)[j] == threads[j].id;
        var k := Place(threads, threads[j].id);
        assert Ids(threads)[k] == Ids(threads)[j];
      }
    }

    /** The idle program's part of `pm_init`: one thread for each CPU, pinned to it, in a process of their own. */
    method StartIdle(ids: seq<Tid>, priority: SizeT, garbage: seq<SizeT>) returns (app: Process)
      requires Valid() && |ids| == |garbage| == current.Length
      requires Spec.Distinct(ids) && forall t :: t in ids ==> t !in byId
      modifies this`processes, this`byId, this`procs
      ensures Valid() && fresh(app) && processes == old(processes) + [app]
      ensures Runs.Enabled(old(Model()), Runs.ScheduleProcess(ids, Runs.IdleRecords(ids, priority, garbage)))
      ensures Model() == Runs.Next(old(Model()), Runs.ScheduleProcess(ids, Runs.IdleRecords(ids, priority, garbage)))
    {
      app := new Process();
      var cpuno := 0;
      while cpuno < current.Length
        invariant cpuno <= current.Length && unchanged(this) && Valid() && Model() == old(Model())
        invariant |app.threads| == cpuno && forall j :: 0 <= j < cpuno ==> fresh(app.threads[j])
        invariant IdleThreads(app.threads, ids, priority, garbage)
      {
        AddIdle(app, ids, priority, garbage);
        cpuno := cpuno + 1;
      }
      IdleViews(app.threads, ids, priority, garbage);
      ProcessSchedule(app);
      IdleViews(app.threads, ids, priority, garbage);
    }

    method AddIdle(app: Process, ids: seq<Tid>, priority: SizeT, garbage: seq<SizeT>)
      requires Valid() && app !in processes && |ids| == |garbage| && IdleThreads(app.threads, ids, priority, garbage)
      requires |app.threads| < |ids| && ids[|app.threads|] !in byId
      modifies this`byId, this`procs, app
      ensures unchanged(this) && Valid() && Model() == old(Model())
      ensures |app.threads| == |old(app.threads)| + 1 && app.threads[..|old(app.threads)|] == old(app.threads)
      ensures fresh(app.threads[|old(app.threads)|])
      ensures IdleThreads(app.threads, ids, priority, garbage)
    {
      var cpuno := |app.threads|;
      var thread, place := ThreadCreate(app, ids[cpuno], priority, garbage[cpuno]);
      thread.affinity := Spec.Cores({cpuno});
    }

    static ghost predicate IdleThreads(threads: seq<Thread>, ids: seq<Tid>, priority: SizeT, garbage: seq<SizeT>)
      requires |ids| == |garbage|
      reads set t | t in threads
    {
      && |threads| <= |ids|
      && forall j :: 0 <= j < |threads| ==>
           && threads[j].id == ids[j]
           && threads[j].View() == Spec.Thread(priority, Spec.Cores({j}), true, false, None, garbage[j])
    }

    static lemma IdleViews(threads: seq<Thread>, ids: seq<Tid>, priority: SizeT, garbage: seq<SizeT>)
      requires |threads| == |ids| == |garbage| && Spec.Distinct(ids) && IdleThreads(threads, ids, priority, garbage)
      ensures Ids(threads) == ids && Views(threads) == Runs.IdleRecords(ids, priority, garbage)
    {
      assert Ids(threads) == ids;
      ViewsAt(threads);
      forall t | t in ids ensures Views(threads)[t] == Runs.IdleRecords(ids, priority, garbage)[t] {
        var j := Runs.CoreOf(ids, t);
        assert threads[j].id == t;
      }
    }

    static ghost function Ids(threads: seq<Thread>): seq<Tid> {
      seq(|threads|, j requires 0 <= j < |threads| => threads[j].id)
    }

    static ghost function ById(threads: seq<Thread>): map<Tid, Thread> {
      map t | t in Ids(threads) :: threads[Place(threads, t)]
    }

    static ghost function Place(threads: seq<Thread>, t: Tid): (j: nat)
      requires t in Ids(threads)
      ensures j < |threads| && threads[j].id == t
    {
      var j: nat :| j < |threads| && Ids(threads)[j] == t; j
    }

    static ghost function Views(threads: seq<Thread>): Spec.Threads
      reads set t | t in threads
    {
      map t | t in Ids(threads) :: ById(threads)[t].View()
    }

    /** Scanning one more process extends the scan of the processes before it, and leaves its own threads final. */
    static lemma ScanStep(thr: Spec.Threads, procs: seq<seq<Tid>>, k: nat, cpu: nat)
      requires k < |procs| && Spec.Partitioned(procs)
      requires forall t :: t in procs[k] ==> t in thr
      ensures var part := Spec.ScanIds(thr, Spec.Flat(procs[..k]), cpu);
              Spec.ScanIds(part, procs[k], cpu) == Spec.ScanIds(thr, Spec.Flat(procs[..k + 1]), cpu)
      ensures forall t :: t in procs[k] ==>
                Spec.ScanIds(thr, Spec.Flat(procs[..k + 1]), cpu)[t] == Spec.ScanIds(thr, Spec.Flat(procs), cpu)[t]
    {
      assert procs[..k + 1][..k] == procs[..k];
      var front := Spec.Flat(procs[..k]);
      assert Spec.Flat(procs[..k + 1]) == front + procs[k];
      forall t | t in procs[k] ensures t in Spec.Flat(procs) && t !in front {
        Spec.FlatMember(procs, t);
        Spec.FlatMember(procs[..k], t);
      }
      ScanConcat(thr, front, procs[k], cpu);
    }

    /** The step of the outer loop, on values. */
    static lemma SelectStep(before: Spec.Threads, procs: seq<seq<Tid>>, k: nat, cpu: nat)
      requires k < |procs| && Spec.Partitioned(procs)
      requires forall t :: t in procs[k] ==> t in before
      ensures var now := Spec.ScanIds(before, Spec.Flat(procs[..k]), cpu);
              var next := Spec.ScanIds(now, procs[k], cpu);
              var after := Spec.ScanIds(before, Spec.Flat(procs), cpu);
              var best, mine := Spec.SelectOf(after, procs[..k], cpu), Spec.BestOf(next, procs[k], cpu);
              && next == Spec.ScanIds(before, Spec.Flat(procs[..k + 1]), cpu)
              && (mine.Some? ==> mine.value in next && mine.value in after
                                 && next[mine.value].priority == Spec.Limit(after, mine))
              && Spec.SelectOf(after, procs[..k + 1], cpu)
                 == if mine.Some? && Spec.Limit(after, mine) < Spec.Limit(after, best) then mine else best
    {
      var now := Spec.ScanIds(before, Spec.Flat(procs[..k]), cpu);
      var next := Spec.ScanIds(now, procs[k], cpu);
      var after := Spec.ScanIds(before, Spec.Flat(procs), cpu);
      ScanStep(before, procs, k, cpu);
      Spec.BestOfCongruence(next, after, procs[k], cpu);
      Spec.BestOfInThreads(next, procs[k], cpu);
      assert procs[..k + 1][..k] == procs[..k];
    }

    static lemma ScanConcat(thr: Spec.Threads, a: seq<Tid>, b: seq<Tid>, cpu: nat)
      requires forall t :: t in b ==> t !in a
      ensures Spec.ScanIds(Spec.ScanIds(thr, a, cpu), b, cpu) == Spec.ScanIds(thr, a + b, cpu)
    {
    }
  }
}
