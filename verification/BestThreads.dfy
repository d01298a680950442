/**
 Which threads run. Every CPU takes the best thread it may run, one CPU at a time; this module shows
 that, once each CPU has made a pass, the threads that run are the best ones of the whole system.
 */
module BestThreads {
  import opened Types
  import opened SchedulerSpec
  import opened SchedulerRuns

  /** Neither blocked nor asleep. */
  ghost predicate Awake(s: Sys, t: Tid) {
    t in s.thr && s.thr[t].blockedBy.None? && s.thr[t].sleepTicks == 0
  }

  ghost function Position(ids: seq<Tid>, t: Tid): (i: nat)
    requires t in ids
    ensures i < |ids| && ids[i] == t
  {
    var i: nat :| i < |ids| && ids[i] == t; i
  }

  /** `t` comes before `u`: smaller priority number, or the same and earlier in process-list, then thread-list order. */
  ghost predicate Before(s: Sys, t: Tid, u: Tid) {
    var ids := Flat(s.procs);
    && t in ids && u in ids && t in s.thr && u in s.thr
    && (|| s.thr[t].priority < s.thr[u].priority
        || (s.thr[t].priority == s.thr[u].priority && Position(ids, t) < Position(ids, u)))
  }

  /** One idle thread per CPU; every other thread is unpinned and ranked before idle. */
  ghost predicate Plain(s: Sys, idle: seq<Tid>) {
    && Listed(s) && Exclusive(s) && IdleReady(s, idle)
    && (forall t :: t in Flat(s.procs) && t !in idle ==>
          t in s.thr && s.thr[t].affinity.AnyCore? && s.thr[t].priority < SIZE_MAX - 1)
  }

  /** `t` is ready to run, is not idle, and no CPU is running it. */
  ghost predicate Waits(s: Sys, idle: seq<Tid>, t: Tid) {
    t in Flat(s.procs) && t !in idle && Awake(s, t) && !s.thr[t].running
  }

  /** No thread that waits comes before the one this CPU runs. */
  ghost predicate RunsBest(s: Sys, idle: seq<Tid>, cpu: nat) {
    && cpu < |s.cur| && s.cur[cpu].Some?
    && forall t: Tid :: Waits(s, idle, t) ==> Before(s, s.cur[cpu].value, t)
  }

  /** The pass woke nobody up: it ended no thread's sleep. */
  ghost predicate NoExpiry(s: Sys, cpu: nat)
    requires cpu < |s.cur|
  {
    forall t :: t in s.thr && t in Flat(s.procs) ==> (Awake(s, t) <==> Awake(Pass(s, cpu), t))
  }

  /** Told from the process list itself: what comes first is the priority, then the process, then the place in it. */
  lemma BeforeIsListOrder(s: Sys, t: Tid, u: Tid)
    requires Listed(s) && t in Flat(s.procs) && u in Flat(s.procs)
    ensures t in s.thr && u in s.thr
    ensures Before(s, t, u) <==>
              || s.thr[t].priority < s.thr[u].priority
              || (s.thr[t].priority == s.thr[u].priority && Ahead(s.procs, t, u))
  {
    var ids := Flat(s.procs);
    FlatInOrder(s.procs, t, u);
    FlatDistinct(s.procs);
    FlatMember(s.procs, t);
    FlatMember(s.procs, u);
    assert forall m :: 0 <= m < |ids| && ids[m] == t ==> m == Position(ids, t);
    assert forall m :: 0 <= m < |ids| && ids[m] == u ==> m == Position(ids, u);
  }

  lemma BeforeTransitive(s: Sys, t: Tid, u: Tid, v: Tid)
    requires Before(s, t, u) && Before(s, u, v)
    ensures Before(s, t, v)
  {
  }

  /** The pass on `cpu` keeps its choice ahead of every other thread it could have taken. */
  lemma SelectedBeats(s: Sys, idle: seq<Tid>, cpu: nat, t: Tid)
    requires Plain(s, idle) && cpu < |s.cur| && NoExpiry(s, cpu)
    requires t in Flat(s.procs) && t !in idle && Awake(s, t)
    requires !s.thr[t].running || s.cur[cpu] == Some(t)
    ensures Selected(s, cpu).Some?
    ensures var v := Selected(s, cpu).value;
            && v in Flat(s.procs) && v in s.thr && v !in idle && Awake(s, v)
            && (t == v || Before(s, v, t))
  {
    IdleFacts(s, idle);
    AlwaysFound(s, idle, cpu);
    PassFacts(s, cpu);
    ListedIsWellFormed(s);
    ReleaseFacts(s, cpu, t);
    SelectedIsFirstMinimum(s, cpu);
    var thr, ids, v := Scanned(s, cpu), Flat(s.procs), Selected(s, cpu).value;
    assert Awake(Pass(s, cpu), t);
    assert Eligible(thr, cpu, t);
    var i :| 0 <= i < |ids| && ids[i] == v && FirstMinimumAt(thr, ids, cpu, i);
    var p := Position(ids, t);
    assert thr[v].priority <= thr[ids[p]].priority;
    assert v !in idle;
    assert Awake(Pass(s, cpu), v);
    assert i == Position(ids, v);
  }

  /** After its pass a CPU runs the best thread there is for it. */
  lemma PassGivesBest(s: Sys, idle: seq<Tid>, cpu: nat)
    requires Plain(s, idle) && cpu < |s.cur| && NoExpiry(s, cpu)
    ensures Plain(Pass(s, cpu), idle) && RunsBest(Pass(s, cpu), idle, cpu)
  {
    PassKeepsPlain(s, idle, cpu);
    var s', v := Pass(s, cpu), Selected(s, cpu).value;
    forall t: Tid | Waits(s', idle, t) ensures Before(s', v, t) {
      ReleaseFacts(s, cpu, t);
      SelectedBeats(s, idle, cpu, t);
    }
  }

  lemma PassKeepsPlain(s: Sys, idle: seq<Tid>, cpu: nat)
    requires Plain(s, idle) && cpu < |s.cur|
    ensures Selected(s, cpu).Some?
    ensures Plain(Pass(s, cpu), idle)
    ensures Pass(s, cpu).cur == s.cur[cpu := Selected(s, cpu)] && Pass(s, cpu).procs == s.procs
  {
    AlwaysFound(s, idle, cpu);
    PassFacts(s, cpu);
    NextExclusive(s, PassOn(cpu));
    NextIdle(s, idle, PassOn(cpu));
  }

  /** The pass of one CPU leaves every other CPU with the best thread it had. */
  lemma PassKeepsBest(s: Sys, idle: seq<Tid>, cpu: nat, other: nat)
    requires Plain(s, idle) && cpu < |s.cur| && NoExpiry(s, cpu) && other != cpu && RunsBest(s, idle, other)
    ensures RunsBest(Pass(s, cpu), idle, other)
  {
    PassKeepsPlain(s, idle, cpu);
    PassFacts(s, cpu);
    var s', v, w := Pass(s, cpu), Selected(s, cpu).value, s.cur[other].value;
    forall t: Tid | Waits(s', idle, t) ensures Before(s', w, t) {
      ReleaseFacts(s, cpu, t);
      if s.cur[cpu] == Some(t) {
        // the thread this pass put down: the one it took instead had been waiting
        SelectedBeats(s, idle, cpu, t);
        ReleaseFacts(s, cpu, v);
        assert Waits(s, idle, v);
        BeforeTransitive(s, w, v, t);
      } else {
        assert Waits(s, idle, t);
      }
      assert Before(s, w, t);
    }
  }

  /** A run of passes that wakes nobody. */
  ghost predicate QuietRun(ss: seq<Sys>, cpus: seq<nat>) {
    && |ss| == |cpus| + 1
    && forall i :: 0 <= i < |cpus| ==>
         cpus[i] < |ss[i].cur| && ss[i + 1] == Pass(ss[i], cpus[i]) && NoExpiry(ss[i], cpus[i])
  }

  lemma {:induction false} RunKeepsBest(ss: seq<Sys>, cpus: seq<nat>, idle: seq<Tid>, k: nat)
    requires QuietRun(ss, cpus) && Plain(ss[0], idle) && k < |ss|
    ensures Plain(ss[k], idle) && |ss[k].cur| == |ss[0].cur| && ss[k].procs == ss[0].procs
    ensures forall c :: c in cpus[..k] ==> RunsBest(ss[k], idle, c)
  {
    if k > 0 {
      RunKeepsBest(ss, cpus, idle, k - 1);
      var s, cpu := ss[k - 1], cpus[k - 1];
      PassKeepsPlain(s, idle, cpu);
      forall c | c in cpus[..k] ensures RunsBest(ss[k], idle, c) {
        if c == cpu {
          PassGivesBest(s, idle, cpu);
        } else {
          assert c in cpus[..k - 1];
          PassKeepsBest(s, idle, cpu, c);
        }
      }
    }
  }

  /**
   Once every CPU has made a pass, in any order and with any repetitions, no ready non-idle thread waits while
   some CPU runs a thread that comes later.
   */
  lemma BestThreadsRun(ss: seq<Sys>, cpus: seq<nat>, idle: seq<Tid>, k: nat, t: Tid, c: nat)
    requires QuietRun(ss, cpus) && Plain(ss[0], idle) && k < |ss|
    requires forall d :: 0 <= d < |ss[0].cur| ==> d in cpus[..k]
    requires Waits(ss[k], idle, t) && c < |ss[k].cur|
    ensures ss[k].cur[c].Some? && Before(ss[k], ss[k].cur[c].value, t)
  {
    RunKeepsBest(ss, cpus, idle, k);
    assert RunsBest(ss[k], idle, c);
  }

  /** Once every CPU runs its best thread, a further pass takes the same thread again. */
  lemma BestIsStable(s: Sys, idle: seq<Tid>, cpu: nat)
    requires Plain(s, idle) && cpu < |s.cur| && NoExpiry(s, cpu)
    requires RunsBest(s, idle, cpu) && RunsAwake(s, idle, cpu)
    ensures Pass(s, cpu).cur == s.cur
  {
    IdleFacts(s, idle);
    PassKeepsPlain(s, idle, cpu);
    PassFacts(s, cpu);
    var u, v := s.cur[cpu].value, Selected(s, cpu).value;
    ReleaseFacts(s, cpu, v);
    assert v !in idle ==> Awake(Pass(s, cpu), v);
    assert v !in idle && v != u ==> Waits(s, idle, v);
    if u !in idle {
      SelectedBeats(s, idle, cpu, u);
    } else if v in idle {
      SameIdle(s, idle, cpu, u, v);
    }
  }

  /** The only idle thread a CPU may run is its own. */
  lemma SameIdle(s: Sys, idle: seq<Tid>, cpu: nat, u: Tid, v: Tid)
    requires Plain(s, idle) && cpu < |s.cur| && u in idle && v in idle
    requires s.cur[cpu] == Some(u) && v in s.thr && Allows(s.thr[v].affinity, cpu)
    ensures u == v
  {
    IdleFacts(s, idle);
    var c :| 0 <= c < |idle| && idle[c] == v;
    var d :| 0 <= d < |idle| && idle[d] == u;
    assert IdleAt(s, u, d);
  }

  /** The CPU runs a scheduled thread that is idle or awake. */
  ghost predicate RunsAwake(s: Sys, idle: seq<Tid>, cpu: nat) {
    && cpu < |s.cur| && s.cur[cpu].Some?
    && s.cur[cpu].value in Flat(s.procs) && (s.cur[cpu].value in idle || Awake(s, s.cur[cpu].value))
  }

  lemma PassGivesAwake(s: Sys, idle: seq<Tid>, cpu: nat, c: nat)
    requires Plain(s, idle) && cpu < |s.cur| && NoExpiry(s, cpu) && (c == cpu || RunsAwake(s, idle, c))
    ensures RunsAwake(Pass(s, cpu), idle, c)
  {
    PassKeepsPlain(s, idle, cpu);
    PassFacts(s, cpu);
    if c != cpu {
      assert Awake(s, s.cur[c].value) ==> Awake(Pass(s, cpu), s.cur[c].value);
    }
  }

  lemma QuietStep(ss: seq<Sys>, cpus: seq<nat>, idle: seq<Tid>, k: nat)
    requires QuietRun(ss, cpus) && Plain(ss[0], idle) && k < |cpus|
    ensures Plain(ss[k], idle) && cpus[k] < |ss[k].cur| && NoExpiry(ss[k], cpus[k]) && ss[k + 1] == Pass(ss[k], cpus[k])
  {
    RunKeepsBest(ss, cpus, idle, k);
  }

  lemma StepAwake(ss: seq<Sys>, cpus: seq<nat>, idle: seq<Tid>, k: nat, c: nat)
    requires QuietRun(ss, cpus) && Plain(ss[0], idle) && k < |cpus| && (c == cpus[k] || RunsAwake(ss[k], idle, c))
    ensures RunsAwake(ss[k + 1], idle, c)
  {
    QuietStep(ss, cpus, idle, k);
    PassGivesAwake(ss[k], idle, cpus[k], c);
  }

  lemma {:induction false} RunnersAwake(ss: seq<Sys>, cpus: seq<nat>, idle: seq<Tid>, i: nat, k: nat)
    requires QuietRun(ss, cpus) && Plain(ss[0], idle) && i < k <= |cpus|
    ensures RunsAwake(ss[k], idle, cpus[i])
    decreases k
  {
    if i < k - 1 {
      RunnersAwake(ss, cpus, idle, i, k - 1);
    }
    StepAwake(ss, cpus, idle, k - 1, cpus[i]);
  }

  lemma InLongerPrefix(cpus: seq<nat>, k: nat, n: nat, c: nat)
    requires k <= n <= |cpus| && c in cpus[..k]
    ensures c in cpus[..n]
  {
    var i :| 0 <= i < k && cpus[..k][i] == c;
    assert cpus[..n][i] == c;
  }

  lemma RunsBestBy(ss: seq<Sys>, cpus: seq<nat>, idle: seq<Tid>, k: nat, n: nat, cpu: nat)
    requires QuietRun(ss, cpus) && Plain(ss[0], idle) && k <= n < |cpus| && cpu == cpus[n]
    requires forall d :: 0 <= d < |ss[0].cur| ==> d in cpus[..k]
    ensures Plain(ss[n], idle) && cpu < |ss[n].cur| && NoExpiry(ss[n], cpu) && ss[n + 1] == Pass(ss[n], cpu)
    ensures RunsBest(ss[n], idle, cpu) && RunsAwake(ss[n], idle, cpu)
  {
    QuietStep(ss, cpus, idle, n);
    RunKeepsBest(ss, cpus, idle, n);
    InLongerPrefix(cpus, k, n, cpu);
    var i: nat :| i < n && cpus[..n][i] == cpu;
    RunnersAwake(ss, cpus, idle, i, n);
  }

  /** Once every CPU has made a pass, all further passes select the same threads: the assignment no longer changes. */
  lemma {:induction false} AssignmentIsStable(ss: seq<Sys>, cpus: seq<nat>, idle: seq<Tid>, k: nat, n: nat)
    requires QuietRun(ss, cpus) && Plain(ss[0], idle) && k <= n < |ss|
    requires forall d :: 0 <= d < |ss[0].cur| ==> d in cpus[..k]
    ensures ss[n].cur == ss[k].cur
    decreases n
  {
    if n > k {
      AssignmentIsStable(ss, cpus, idle, k, n - 1);
      var cpu := cpus[n - 1];
      RunsBestBy(ss, cpus, idle, k, n - 1, cpu);
      BestIsStable(ss[n - 1], idle, cpu);
    }
  }
}
