/**
 Runs of the scheduler: passes on any CPU, in any order, interleaved with everything else that
 writes a thread's scheduling fields. Two safety results over whole runs: no thread is on two CPUs,
 and, given one idle thread per CPU, no pass comes back empty-handed.
 */
module SchedulerRuns {
  import opened Types
  import opened SchedulerSpec

  datatype Event =
    | PassOn(cpu: nat)
      // a thread created in a scheduled process; its sleep_ticks is whatever the allocated memory held
    | CreateThread(proc: nat, tid: Tid, priority: SizeT, sleepTicks: SizeT)
      // a process put on the process list, with the threads created in it so far
    | ScheduleProcess(ids: seq<Tid>, records: Threads)
    | SetAffinity(tid: Tid, affinity: Affinity)
    | Sleep(tid: Tid, maxCpus: SizeT, ticks: SizeT)
    | Block(tid: Tid, pipe: PipeId)
    | Wake(tid: Tid)

  /** `PLATFORM_DATA.max_cpus *(ticks+1)` in 64-bit arithmetic. */
  function SleepTicksFor(maxCpus: SizeT, ticks: SizeT): SizeT {
    (maxCpus * ((ticks + 1) % (SIZE_MAX + 1))) % (SIZE_MAX + 1)
  }

  ghost predicate Enabled(s: Sys, e: Event) {
    match e
    case PassOn(cpu) => cpu < |s.cur| && Selected(s, cpu).Some?
    case CreateThread(proc, tid, _, _) => proc < |s.procs| && tid !in s.thr
    case ScheduleProcess(ids, records) =>
      && Distinct(ids)
      && (forall t :: t in ids <==> t in records)
      && (forall t :: t in records ==> t !in s.thr && !records[t].running)
    case _ => e.tid in s.thr
  }

  ghost function Next(s: Sys, e: Event): Sys
    requires Enabled(s, e)
  {
    match e
    case PassOn(cpu) => Pass(s, cpu)
    case CreateThread(proc, tid, priority, sleepTicks) =>
      s.(procs := s.procs[proc := s.procs[proc] + [tid]],
         thr := s.thr[tid := Thread(priority, AnyCore, true, false, None, sleepTicks)])
    case ScheduleProcess(ids, records) => s.(procs := s.procs + [ids], thr := s.thr + records)
    case SetAffinity(tid, affinity) => s.(thr := s.thr[tid := s.thr[tid].(affinity := affinity)])
    case Sleep(tid, maxCpus, ticks) =>
      if ticks == 0 then s
      else s.(thr := s.thr[tid := s.thr[tid].(sleepTicks := SleepTicksFor(maxCpus, ticks))])
    case Block(tid, pipe) => s.(thr := s.thr[tid := s.thr[tid].(blockedBy := Some(pipe))])
    case Wake(tid) => s.(thr := s.thr[tid := s.thr[tid].(blockedBy := None)])
  }

  ghost predicate IsRun(ss: seq<Sys>, es: seq<Event>) {
    && |ss| == |es| + 1
    && forall i :: 0 <= i < |es| ==> Enabled(ss[i], es[i]) && ss[i + 1] == Next(ss[i], es[i])
  }

  /** The state `pm_init` sets up before it creates any process. */
  ghost function Boot(cpus: nat): Sys {
    Sys([], map[], seq(cpus, _ => None))
  }

  // ---------------------------------------------------------------------------------------------
  // What a run has made of a thread's record, told from the events

  /** The affinity set last. */
  function AffinityAfter(first: Affinity, es: seq<Event>, k: nat, t: Tid): Affinity
    requires k <= |es|
    decreases k
  {
    if k == 0 then first
    else match es[k - 1]
      case SetAffinity(u, a) => if u == t then a else AffinityAfter(first, es, k - 1, t)
      case _ => AffinityAfter(first, es, k - 1, t)
  }

  /** The pipe that blocked the thread last, unless it was woken since. */
  function BlockerAfter(first: Option<PipeId>, es: seq<Event>, k: nat, t: Tid): Option<PipeId>
    requires k <= |es|
    decreases k
  {
    if k == 0 then first
    else match es[k - 1]
      case Block(u, p) => if u == t then Some(p) else BlockerAfter(first, es, k - 1, t)
      case Wake(u) => if u == t then None else BlockerAfter(first, es, k - 1, t)
      case _ => BlockerAfter(first, es, k - 1, t)
  }

  lemma RecordStep(s: Sys, e: Event, t: Tid)
    requires Enabled(s, e) && t in s.thr
    ensures t in Next(s, e).thr
    ensures var r, r' := s.thr[t], Next(s, e).thr[t];
            && r'.priority == r.priority
            && r'.affinity == (if e.SetAffinity? && e.tid == t then e.affinity else r.affinity)
            && r'.blockedBy == match e
                               case Block(u, p) => if u == t then Some(p) else r.blockedBy
                               case Wake(u) => if u == t then None else r.blockedBy
                               case _ => r.blockedBy
  {
  }

  /** Passes and the other events leave priority, affinity and `blocked_by` to those who set them. */
  lemma {:induction false} RecordsFollow(ss: seq<Sys>, es: seq<Event>, k: nat, t: Tid)
    requires IsRun(ss, es) && k <= |es| && t in ss[0].thr
    ensures t in ss[k].thr && ss[k].thr[t].priority == ss[0].thr[t].priority
    ensures ss[k].thr[t].affinity == AffinityAfter(ss[0].thr[t].affinity, es, k, t)
    ensures ss[k].thr[t].blockedBy == BlockerAfter(ss[0].thr[t].blockedBy, es, k, t)
  {
    if k > 0 {
      RecordsFollow(ss, es, k - 1, t);
      assert Enabled(ss[k - 1], es[k - 1]) && ss[k] == Next(ss[k - 1], es[k - 1]);
      RecordStep(ss[k - 1], es[k - 1], t);
    }
  }

  // ---------------------------------------------------------------------------------------------
  // CPU exclusion

  ghost predicate Current(s: Sys, t: Tid) {
    exists c :: 0 <= c < |s.cur| && s.cur[c] == Some(t)
  }

  ghost predicate Listed(s: Sys) {
    && Partitioned(s.procs)
    && (forall i, t :: 0 <= i < |s.procs| && t in s.procs[i] ==> t in s.thr)
    && (forall c :: 0 <= c < |s.cur| && s.cur[c].Some? ==> s.cur[c].value in s.thr)
  }

  /** RUNNING is set exactly on the CPUs' current threads, and these are all different. */
  ghost predicate Exclusive(s: Sys) {
    && (forall t :: t in s.thr ==> (s.thr[t].running <==> Current(s, t)))
    && (forall c, d :: 0 <= c < d < |s.cur| && s.cur[c].Some? ==> s.cur[c] != s.cur[d])
  }

  lemma ListedIsWellFormed(s: Sys)
    requires Listed(s)
    ensures WellFormed(s)
  {
    FlatDistinct(s.procs);
    forall t | t in Flat(s.procs) ensures t in s.thr {
      FlatMember(s.procs, t);
    }
  }

  /** What the pass of `cpu` finds and leaves behind. */
  lemma PassFacts(s: Sys, cpu: nat)
    requires Listed(s) && Exclusive(s) && cpu < |s.cur| && Selected(s, cpu).Some?
    ensures var sel, s' := Selected(s, cpu).value, Pass(s, cpu);
            && sel in Flat(s.procs) && sel in s.thr
            && Eligible(Scanned(s, cpu), cpu, sel)
            && !Scanned(s, cpu)[sel].running
            && s'.thr.Keys == s.thr.Keys && s'.procs == s.procs && s'.cur == s.cur[cpu := Some(sel)]
  {
    ListedIsWellFormed(s);
    SelectedIsFirstMinimum(s, cpu);
    var thr, ids := Scanned(s, cpu), Flat(s.procs);
    var sel := Selected(s, cpu).value;
    assert IsFirstMinimum(thr, ids, cpu, sel);
    var i :| 0 <= i < |ids| && ids[i] == sel && FirstMinimumAt(thr, ids, cpu, i);
    assert thr.Keys == s.thr.Keys;
    assert Pass(s, cpu).thr.Keys == s.thr.Keys;
  }

  lemma ReleaseFacts(s: Sys, cpu: nat, t: Tid)
    requires Listed(s) && Exclusive(s) && cpu < |s.cur| && t in s.thr
    ensures t in Scanned(s, cpu)
    ensures Scanned(s, cpu)[t].running <==> exists c :: 0 <= c < |s.cur| && c != cpu && s.cur[c] == Some(t)
    ensures Scanned(s, cpu)[t].running <==> s.thr[t].running && s.cur[cpu] != Some(t)
  {
    if s.thr[t].running && s.cur[cpu] != Some(t) {
      var c :| 0 <= c < |s.cur| && s.cur[c] == Some(t);
    }
  }

  lemma PassExclusive(s: Sys, cpu: nat)
    requires Listed(s) && Exclusive(s) && cpu < |s.cur| && Selected(s, cpu).Some?
    ensures Listed(Pass(s, cpu)) && Exclusive(Pass(s, cpu))
  {
    PassFacts(s, cpu);
    var s', sel := Pass(s, cpu), Selected(s, cpu).value;
    ReleaseFacts(s, cpu, sel);
    forall t | t in s'.thr ensures s'.thr[t].running <==> Current(s', t) {
      ReleaseFacts(s, cpu, t);
      if t == sel {
        assert s'.cur[cpu] == Some(t);
      } else if Scanned(s, cpu)[t].running {
        var c :| 0 <= c < |s.cur| && c != cpu && s.cur[c] == Some(t);
        assert s'.cur[c] == Some(t);
      }
    }
  }

  lemma CreateListed(s: Sys, e: Event)
    requires Listed(s) && Enabled(s, e) && (e.CreateThread? || e.ScheduleProcess?)
    ensures Listed(Next(s, e))
  {
    var s' := Next(s, e);
    forall i, t | 0 <= i < |s'.procs| && t in s'.procs[i] ensures t in s'.thr {}
    forall i | 0 <= i < |s'.procs| ensures Distinct(s'.procs[i]) {
      assert i < |s.procs| ==> Distinct(s.procs[i]);
    }
    forall i, j, t | 0 <= i < j < |s'.procs| && t in s'.procs[i] ensures t !in s'.procs[j] {
      if e.CreateThread? && t == e.tid {
        assert t !in s.procs[j];
      } else if e.CreateThread? {
        assert t in s.procs[i] && t !in s.procs[j];
      } else {
        assert t in s.procs[i] && t in s.thr;
      }
    }
  }

  lemma NextExclusive(s: Sys, e: Event)
    requires Listed(s) && Exclusive(s) && Enabled(s, e)
    ensures Listed(Next(s, e)) && Exclusive(Next(s, e))
  {
    if e.PassOn? {
      PassExclusive(s, e.cpu);
    } else {
      var s' := Next(s, e);
      if e.CreateThread? || e.ScheduleProcess? {
        CreateListed(s, e);
      }
      forall t | t in s'.thr ensures s'.thr[t].running <==> Current(s', t) {
        assert Current(s', t) <==> Current(s, t);
        if t in s.thr {
          assert s'.thr[t].running == s.thr[t].running;
        } else if Current(s, t) {
          assert false;
        }
      }
    }
  }

  /** CPU exclusion: in every state of every run from boot, RUNNING marks exactly the current threads, all different. */
  lemma {:induction false} CpuExclusion(ss: seq<Sys>, es: seq<Event>, cpus: nat, k: nat)
    requires IsRun(ss, es) && ss[0] == Boot(cpus) && k < |ss|
    ensures Listed(ss[k]) && Exclusive(ss[k])
  {
    if k > 0 {
      CpuExclusion(ss, es, cpus, k - 1);
      NextExclusive(ss[k - 1], es[k - 1]);
    }
  }

  // ---------------------------------------------------------------------------------------------
  // A thread is always found

  /** One idle thread per CPU: pinned there, never blocked, and not going to be asleep at its CPU's next pass. */
  ghost predicate IdleReady(s: Sys, idle: seq<Tid>) {
    && |idle| == |s.cur|
    && forall c :: 0 <= c < |idle| ==> IdleAt(s, idle[c], c)
  }

  ghost predicate IdleAt(s: Sys, t: Tid, c: nat) {
    && t in Flat(s.procs) && t in s.thr
    && s.thr[t].affinity == Cores({c})
    && s.thr[t].priority == SIZE_MAX - 1
    && s.thr[t].blockedBy.None?
    && s.thr[t].sleepTicks <= 1
    && (forall d :: 0 <= d < |s.cur| && s.cur[d] == Some(t) ==> d == c)
  }

  /** The event leaves the idle threads' affinity, sleep and blocking alone. */
  ghost predicate Spares(e: Event, idle: seq<Tid>) {
    (e.SetAffinity? || e.Sleep? || e.Block?) ==> e.tid !in idle
  }

  /** The thread can be taken by the next pass of `cpu`: ready after one more tick, ranked, and not on another CPU. */
  ghost predicate Takeable(s: Sys, cpu: nat, t: Tid)
    requires cpu < |s.cur|
  {
    && t in Flat(s.procs) && t in s.thr && Allows(s.thr[t].affinity, cpu)
    && s.thr[t].blockedBy.None? && s.thr[t].sleepTicks <= 1 && s.thr[t].priority < SIZE_MAX
    && (s.thr[t].running ==> s.cur[cpu] == Some(t))
  }

  lemma TakeableIsEligible(s: Sys, cpu: nat, t: Tid)
    requires Listed(s) && Exclusive(s) && cpu < |s.cur| && t in Flat(s.procs) && t in s.thr
    ensures Eligible(Scanned(s, cpu), cpu, t) <==> Takeable(s, cpu, t)
  {
    ReleaseFacts(s, cpu, t);
  }

  /** Exactly when a pass finds a thread, in any state: otherwise the source goes on to dereference NULL. */
  lemma FoundExactly(s: Sys, cpu: nat)
    requires Listed(s) && Exclusive(s) && cpu < |s.cur|
    ensures Selected(s, cpu).Some? <==> exists t: Tid :: Takeable(s, cpu, t)
    ensures Selected(s, cpu).Some? ==> Takeable(s, cpu, Selected(s, cpu).value)
  {
    SelectedIsFirstMinimum(s, cpu);
    if Selected(s, cpu).Some? {
      PassFacts(s, cpu);
      TakeableIsEligible(s, cpu, Selected(s, cpu).value);
    }
    forall t: Tid | Takeable(s, cpu, t) ensures Selected(s, cpu).Some? {
      TakeableIsEligible(s, cpu, t);
      var i :| 0 <= i < |Flat(s.procs)| && Flat(s.procs)[i] == t;
    }
  }

  /** So in every state of every run from boot. */
  lemma FoundExactlyInRun(ss: seq<Sys>, es: seq<Event>, cpus: nat, k: nat, cpu: nat)
    requires IsRun(ss, es) && ss[0] == Boot(cpus) && k < |ss| && cpu < |ss[k].cur|
    ensures Selected(ss[k], cpu).Some? <==> exists t: Tid :: Takeable(ss[k], cpu, t)
  {
    CpuExclusion(ss, es, cpus, k);
    FoundExactly(ss[k], cpu);
  }

  /** No pass dereferences NULL, and the thread it takes may run on its CPU. */
  lemma AlwaysFound(s: Sys, idle: seq<Tid>, cpu: nat)
    requires Listed(s) && Exclusive(s) && IdleReady(s, idle) && cpu < |s.cur|
    ensures Selected(s, cpu).Some?
    ensures var sel := Selected(s, cpu).value; sel in s.thr && Allows(s.thr[sel].affinity, cpu)
  {
    var t := idle[cpu];
    assert IdleAt(s, t, cpu);
    if s.thr[t].running {
      var c :| 0 <= c < |s.cur| && s.cur[c] == Some(t);
    }
    assert Takeable(s, cpu, t);
    FoundExactly(s, cpu);
  }

  /** No event takes a thread off the lists. */
  lemma StaysListed(s: Sys, e: Event, t: Tid)
    requires Enabled(s, e) && t in Flat(s.procs)
    ensures t in Flat(Next(s, e).procs)
  {
    FlatMember(s.procs, t);
    FlatMember(Next(s, e).procs, t);
    var i :| 0 <= i < |s.procs| && t in s.procs[i];
    assert t in Next(s, e).procs[i];
  }

  lemma PassKeepsIdle(s: Sys, cpu: nat, t: Tid, c: nat)
    requires Listed(s) && Exclusive(s) && cpu < |s.cur| && Selected(s, cpu).Some? && IdleAt(s, t, c)
    ensures IdleAt(Pass(s, cpu), t, c)
  {
    PassFacts(s, cpu);
    var s' := Pass(s, cpu);
    forall d | 0 <= d < |s'.cur| && s'.cur[d] == Some(t) ensures d == c {
      if d != cpu {
        assert s.cur[d] == Some(t);
      }
    }
  }

  lemma NextIdle(s: Sys, idle: seq<Tid>, e: Event)
    requires Listed(s) && Exclusive(s) && IdleReady(s, idle) && Enabled(s, e) && Spares(e, idle)
    ensures IdleReady(Next(s, e), idle)
  {
    forall c | 0 <= c < |idle| ensures IdleAt(Next(s, e), idle[c], c) {
      assert IdleAt(s, idle[c], c);
      if e.PassOn? {
        PassKeepsIdle(s, e.cpu, idle[c], c);
      } else {
        StaysListed(s, e, idle[c]);
      }
    }
  }

  /** Whatever else happens, every pass on every CPU finds a thread it may run, for as long as the run goes on. */
  lemma {:induction false} NeverNull(ss: seq<Sys>, es: seq<Event>, idle: seq<Tid>, k: nat, cpu: nat)
    requires IsRun(ss, es) && Listed(ss[0]) && Exclusive(ss[0]) && IdleReady(ss[0], idle)
    requires forall i :: 0 <= i < |es| ==> Spares(es[i], idle)
    requires k < |ss| && cpu < |ss[0].cur|
    ensures |ss[k].cur| == |ss[0].cur| && Selected(ss[k], cpu).Some?
    ensures var sel := Selected(ss[k], cpu).value; sel in ss[k].thr && Allows(ss[k].thr[sel].affinity, cpu)
  {
    IdleRun(ss, es, idle, k);
    AlwaysFound(ss[k], idle, cpu);
  }

  lemma {:induction false} IdleRun(ss: seq<Sys>, es: seq<Event>, idle: seq<Tid>, k: nat)
    requires IsRun(ss, es) && Listed(ss[0]) && Exclusive(ss[0]) && IdleReady(ss[0], idle)
    requires forall i :: 0 <= i < |es| ==> Spares(es[i], idle)
    requires k < |ss|
    ensures Listed(ss[k]) && Exclusive(ss[k]) && IdleReady(ss[k], idle)
  {
    if k > 0 {
      IdleRun(ss, es, idle, k - 1);
      NextExclusive(ss[k - 1], es[k - 1]);
      NextIdle(ss[k - 1], idle, es[k - 1]);
    }
  }

  lemma IdleFacts(s: Sys, idle: seq<Tid>)
    requires IdleReady(s, idle)
    ensures forall t :: t in idle ==>
              t in s.thr && s.thr[t].priority == SIZE_MAX - 1 && s.thr[t].blockedBy.None? && s.thr[t].affinity.Cores?
    ensures forall c :: 0 <= c < |idle| ==> s.thr[idle[c]].affinity == Cores({c})
  {
    forall t | t in idle
      ensures t in s.thr && s.thr[t].priority == SIZE_MAX - 1 && s.thr[t].blockedBy.None? && s.thr[t].affinity.Cores?
    {
      var c :| 0 <= c < |idle| && idle[c] == t;
      assert IdleAt(s, t, c);
    }
    assert forall c :: 0 <= c < |idle| ==> IdleAt(s, idle[c], c);
  }

  // ---------------------------------------------------------------------------------------------
  // The idle process that `pm_init` schedules

  /** The records of the idle threads: thread `c` is pinned to core `c`, its sleep_ticks is left as allocated. */
  ghost function IdleRecords(idle: seq<Tid>, priority: SizeT, garbage: seq<SizeT>): Threads
    requires |idle| == |garbage|
  {
    map t | t in idle :: Thread(priority, Cores({CoreOf(idle, t)}), true, false, None, garbage[CoreOf(idle, t)])
  }

  ghost function CoreOf(idle: seq<Tid>, t: Tid): (c: nat)
    requires t in idle
    ensures c < |idle| && idle[c] == t
  {
    var c: nat :| c < |idle| && idle[c] == t; c
  }

  lemma CoreOfIndex(idle: seq<Tid>, c: nat)
    requires Distinct(idle) && c < |idle|
    ensures CoreOf(idle, idle[c]) == c
  {
    var d := CoreOf(idle, idle[c]);
    assert d < c || c < d || c == d;
  }

  /** Scheduling the idle process gives every CPU its idle thread, provided the memory for sleep_ticks held 0 or 1. */
  lemma IdleProcessIsReady(s: Sys, idle: seq<Tid>, garbage: seq<SizeT>)
    requires Listed(s) && |idle| == |garbage| == |s.cur|
    requires Enabled(s, ScheduleProcess(idle, IdleRecords(idle, SIZE_MAX - 1, garbage)))
    requires forall c :: 0 <= c < |garbage| ==> garbage[c] <= 1
    ensures IdleReady(Next(s, ScheduleProcess(idle, IdleRecords(idle, SIZE_MAX - 1, garbage))), idle)
  {
    var records := IdleRecords(idle, SIZE_MAX - 1, garbage);
    var s' := Next(s, ScheduleProcess(idle, records));
    forall c | 0 <= c < |idle| ensures IdleAt(s', idle[c], c) {
      var t := idle[c];
      CoreOfIndex(idle, c);
      assert t in records;
      FlatMember(s'.procs, t);
      assert t in s'.procs[|s.procs|];
    }
  }

  /** The system with nothing but the idle process scheduled. */
  ghost function IdleOnly(cpus: nat, idle: seq<Tid>, garbage: seq<SizeT>): Sys
    requires |idle| == |garbage|
  {
    Sys([idle], IdleRecords(idle, SIZE_MAX - 1, garbage), seq(cpus, _ => None))
  }

  lemma IdleOnlyAfterBoot(cpus: nat, idle: seq<Tid>, garbage: seq<SizeT>)
    requires |idle| == |garbage| && Distinct(idle)
    ensures var e := ScheduleProcess(idle, IdleRecords(idle, SIZE_MAX - 1, garbage));
            Enabled(Boot(cpus), e) && Next(Boot(cpus), e) == IdleOnly(cpus, idle, garbage)
    ensures Flat([idle]) == idle
  {
    var records := IdleRecords(idle, SIZE_MAX - 1, garbage);
    assert map[] + records == records;
    assert [] + [idle] == [idle];
    assert Flat([idle]) == Flat([idle][..0]) + [idle][0] == [] + idle;
  }

  lemma IdleAloneTakeable(cpus: nat, idle: seq<Tid>, garbage: seq<SizeT>, cpu: nat, t: Tid)
    requires |idle| == |garbage| == cpus && cpu < cpus && Distinct(idle) && Flat([idle]) == idle
    ensures Takeable(IdleOnly(cpus, idle, garbage), cpu, t) <==> t == idle[cpu] && garbage[cpu] <= 1
  {
    CoreOfIndex(idle, cpu);
    if t in idle {
      assert IdleOnly(cpus, idle, garbage).thr[t]
          == Thread(SIZE_MAX - 1, Cores({CoreOf(idle, t)}), true, false, None, garbage[CoreOf(idle, t)]);
    }
  }

  /**
   `pm_thread_create` leaves `sleep_ticks` unset. With nothing but the idle process scheduled, the first pass of a
   CPU has only that CPU's idle thread to find, and finds it if and only if the word allocated for its count held
   0 or 1.
   */
  lemma FirstPassNeedsClearedSleep(cpus: nat, idle: seq<Tid>, garbage: seq<SizeT>, cpu: nat)
    requires |idle| == |garbage| == cpus && cpu < cpus && Distinct(idle)
    ensures var e := ScheduleProcess(idle, IdleRecords(idle, SIZE_MAX - 1, garbage));
            Enabled(Boot(cpus), e) && (Selected(Next(Boot(cpus), e), cpu).Some? <==> garbage[cpu] <= 1)
  {
    IdleOnlyAfterBoot(cpus, idle, garbage);
    NextExclusive(Boot(cpus), ScheduleProcess(idle, IdleRecords(idle, SIZE_MAX - 1, garbage)));
    IdleAloneFound(IdleOnly(cpus, idle, garbage), idle, garbage, cpu);
  }

  lemma IdleAloneFound(s: Sys, idle: seq<Tid>, garbage: seq<SizeT>, cpu: nat)
    requires |idle| == |garbage| && cpu < |idle| && Distinct(idle) && Flat([idle]) == idle
    requires s == IdleOnly(|idle|, idle, garbage) && Listed(s) && Exclusive(s)
    ensures Selected(s, cpu).Some? <==> garbage[cpu] <= 1
  {
    FoundExactly(s, cpu);
    IdleAloneTakeable(|idle|, idle, garbage, cpu, idle[cpu]);
    if Selected(s, cpu).Some? {
      IdleAloneTakeable(|idle|, idle, garbage, cpu, Selected(s, cpu).value);
    }
  }
}
