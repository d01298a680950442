/**
 How long a thread sleeps. The sleep call stores `max_cpus * (ticks + 1)`, and every pass on a CPU that
 the thread may use takes one off.
 */
module SleepTicks {
  import opened Types
  import opened SchedulerSpec
  import opened SchedulerRuns

  /** The stored count is the intended one exactly when it fits in 64 bits. */
  lemma SleepCountExact(maxCpus: SizeT, ticks: SizeT)
    requires maxCpus > 0
    ensures SleepTicksFor(maxCpus, ticks) == maxCpus * (ticks + 1) <==> maxCpus * (ticks + 1) <= SIZE_MAX
  {
    if maxCpus * (ticks + 1) <= SIZE_MAX {
      assert ticks + 1 <= maxCpus * (ticks + 1);
      assert (ticks + 1) % (SIZE_MAX + 1) == ticks + 1;
    }
  }

  /** The event is a pass on a CPU that threads of this affinity may use. */
  predicate PassFor(e: Event, affinity: Affinity) {
    e.PassOn? && Allows(affinity, e.cpu)
  }

  function PassesFor(es: seq<Event>, affinity: Affinity): (n: nat)
    ensures n <= |es|
  {
    if es == [] then 0
    else PassesFor(es[..|es| - 1], affinity) + if PassFor(es[|es| - 1], affinity) then 1 else 0
  }

  /** `t` is scheduled and asleep with `count` to go, as the sleep call leaves its caller. */
  ghost predicate Asleep(s: Sys, t: Tid, count: nat) {
    && Listed(s) && Exclusive(s)
    && t in Flat(s.procs) && t in s.thr && s.thr[t].sleepTicks == count
  }

  lemma SleepStarts(s: Sys, t: Tid, maxCpus: SizeT, ticks: SizeT)
    requires Listed(s) && Exclusive(s) && t in Flat(s.procs) && t in s.thr && ticks > 0
    ensures Enabled(s, Sleep(t, maxCpus, ticks))
    ensures Asleep(Next(s, Sleep(t, maxCpus, ticks)), t, SleepTicksFor(maxCpus, ticks))
  {
    NextExclusive(s, Sleep(t, maxCpus, ticks));
  }

  /** Nobody changes the thread's affinity or puts it to sleep again. */
  ghost predicate Undisturbed(es: seq<Event>, t: Tid) {
    forall i :: 0 <= i < |es| && (es[i].SetAffinity? || es[i].Sleep?) ==> es[i].tid != t
  }

  function Remaining(count: nat, passes: nat): nat {
    if passes < count then count - passes else 0
  }

  lemma NextSleep(s: Sys, e: Event, t: Tid)
    requires Listed(s) && Exclusive(s) && Enabled(s, e)
    requires t in Flat(s.procs) && t in s.thr
    requires (e.SetAffinity? || e.Sleep?) ==> e.tid != t
    ensures var s' := Next(s, e);
            && t in Flat(s'.procs) && t in s'.thr && s'.thr[t].affinity == s.thr[t].affinity
            && s'.thr[t].sleepTicks == Remaining(s.thr[t].sleepTicks, if PassFor(e, s.thr[t].affinity) then 1 else 0)
  {
    StaysListed(s, e, t);
    if e.PassOn? {
      PassTicks(s, e.cpu, t);
    }
  }

  /** A pass takes one off the count of every thread it looks at. */
  lemma PassTicks(s: Sys, cpu: nat, t: Tid)
    requires Listed(s) && Exclusive(s) && cpu < |s.cur| && Selected(s, cpu).Some? && t in Flat(s.procs) && t in s.thr
    ensures var s' := Pass(s, cpu);
            && t in s'.thr && s'.thr[t].affinity == s.thr[t].affinity
            && s'.thr[t].sleepTicks
               == Remaining(s.thr[t].sleepTicks, if Allows(s.thr[t].affinity, cpu) then 1 else 0)
  {
    PassFacts(s, cpu);
    assert Scanned(s, cpu)[t] == Tick(Release(s, cpu)[t], cpu);
  }

  /** After any events, what is left of the count is the count less the passes on the thread's CPUs. */
  lemma {:induction false} SleepCountsDown(ss: seq<Sys>, es: seq<Event>, t: Tid, count: nat, k: nat)
    requires IsRun(ss, es) && Asleep(ss[0], t, count) && Undisturbed(es, t) && k < |ss|
    ensures Listed(ss[k]) && Exclusive(ss[k]) && t in Flat(ss[k].procs) && t in ss[k].thr
    ensures ss[k].thr[t].affinity == ss[0].thr[t].affinity
    ensures ss[k].thr[t].sleepTicks == Remaining(count, PassesFor(es[..k], ss[0].thr[t].affinity))
  {
    if k > 0 {
      SleepCountsDown(ss, es, t, count, k - 1);
      assert es[..k][..k - 1] == es[..k - 1];
      NextExclusive(ss[k - 1], es[k - 1]);
      NextSleep(ss[k - 1], es[k - 1], t);
    }
  }

  /**
   The pass that follows `k` events can see the thread ready exactly when it is at least the `count`-th pass on
   the thread's CPUs (and nothing else holds the thread back).
   */
  lemma ExactSleep(ss: seq<Sys>, es: seq<Event>, t: Tid, count: nat, k: nat)
    requires IsRun(ss, es) && Asleep(ss[0], t, count) && Undisturbed(es, t) && k < |es|
    requires PassFor(es[k], ss[0].thr[t].affinity)
    ensures t in ss[k].thr
    ensures PassesFor(es[..k], ss[0].thr[t].affinity) + 1 < count ==> Selected(ss[k], es[k].cpu) != Some(t)
    ensures PassesFor(es[..k], ss[0].thr[t].affinity) + 1 >= count ==>
              (t in Scanned(ss[k], es[k].cpu) &&
               (Candidate(Scanned(ss[k], es[k].cpu)[t], es[k].cpu)
                <==> ss[k].thr[t].blockedBy.None? && (ss[k].thr[t].running ==> ss[k].cur[es[k].cpu] == Some(t))))
  {
    SleepCountsDown(ss, es, t, count, k);
    assert Enabled(ss[k], es[k]);
    PassFacts(ss[k], es[k].cpu);
    ReleaseFacts(ss[k], es[k].cpu, t);
  }

  // ---------------------------------------------------------------------------------------------
  // The same in terms of passes per CPU

  function PassesOn(es: seq<Event>, cpu: nat): nat {
    if es == [] then 0 else PassesOn(es[..|es| - 1], cpu) + if es[|es| - 1] == PassOn(cpu) then 1 else 0
  }

  function PassesBelow(es: seq<Event>, cpus: nat): nat {
    if cpus == 0 then 0 else PassesBelow(es, cpus - 1) + PassesOn(es, cpus - 1)
  }

  lemma {:induction false} PassesBelowStep(es: seq<Event>, cpus: nat)
    requires es != []
    ensures var e := es[|es| - 1];
            PassesBelow(es, cpus) == PassesBelow(es[..|es| - 1], cpus) + if e.PassOn? && e.cpu < cpus then 1 else 0
  {
    if cpus > 0 {
      PassesBelowStep(es, cpus - 1);
    }
  }

  lemma {:induction false} PassesBelowEmpty(cpus: nat)
    ensures PassesBelow([], cpus) == 0
  {
    if cpus > 0 {
      PassesBelowEmpty(cpus - 1);
    }
  }

  lemma {:induction false} PassesSumUp(es: seq<Event>, cpus: nat)
    requires forall i :: 0 <= i < |es| && es[i].PassOn? ==> es[i].cpu < cpus
    ensures PassesFor(es, AnyCore) == PassesBelow(es, cpus)
  {
    if es == [] {
      PassesBelowEmpty(cpus);
    } else {
      PassesSumUp(es[..|es| - 1], cpus);
      PassesBelowStep(es, cpus);
    }
  }

  lemma {:induction false} PassesBounds(es: seq<Event>, cpus: nat, n: nat)
    ensures (forall c :: 0 <= c < cpus ==> PassesOn(es, c) <= n) ==> PassesBelow(es, cpus) <= cpus * n
    ensures (forall c :: 0 <= c < cpus ==> PassesOn(es, c) >= n) ==> PassesBelow(es, cpus) >= cpus * n
  {
    if cpus > 0 {
      PassesBounds(es, cpus - 1, n);
      assert cpus * n == (cpus - 1) * n + n;
    }
  }

  /**
   An unpinned thread that calls sleep(ticks) is asleep for as long as no CPU has made more than `ticks`
   passes, and its sleep is over once every CPU has made `ticks + 1`.
   */
  lemma SleepInTicks(ss: seq<Sys>, es: seq<Event>, t: Tid, ticks: SizeT, maxCpus: SizeT, k: nat)
    requires IsRun(ss, es) && Undisturbed(es, t) && k < |ss|
    requires 0 < maxCpus == |ss[0].cur| && ticks > 0 && maxCpus * (ticks + 1) <= SIZE_MAX
    requires Asleep(ss[0], t, SleepTicksFor(maxCpus, ticks)) && ss[0].thr[t].affinity.AnyCore?
    ensures t in ss[k].thr
    ensures (forall c :: 0 <= c < maxCpus ==> PassesOn(es[..k], c) <= ticks) ==> ss[k].thr[t].sleepTicks > 0
    ensures (forall c :: 0 <= c < maxCpus ==> PassesOn(es[..k], c) >= ticks + 1) ==> ss[k].thr[t].sleepTicks == 0
  {
    SleepCountExact(maxCpus, ticks);
    var count := maxCpus * (ticks + 1);
    SleepCountsDown(ss, es, t, count, k);
    forall i | 0 <= i < k && es[i].PassOn? ensures es[i].cpu < maxCpus {
      CpusConstant(ss, es, i);
      assert Enabled(ss[i], es[i]);
    }
    PassesSumUp(es[..k], maxCpus);
    PassesBounds(es[..k], maxCpus, ticks);
    PassesBounds(es[..k], maxCpus, ticks + 1);
    assert maxCpus * ticks < maxCpus * (ticks + 1);
  }

  lemma {:induction false} CpusConstant(ss: seq<Sys>, es: seq<Event>, k: nat)
    requires IsRun(ss, es) && k < |ss|
    ensures |ss[k].cur| == |ss[0].cur|
  {
    if k > 0 {
      CpusConstant(ss, es, k - 1);
      assert Enabled(ss[k - 1], es[k - 1]);
    }
  }
}
