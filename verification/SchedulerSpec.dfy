/**
 What one scheduling pass does, as functions on values.

 A pass is taken as one atomic step of the system. Passes exclude each other by the process-list lock; a sleep,
 wake-up, block, affinity or thread-list write of another CPU can fall inside a pass in the source, and that is
 abstracted from. `ProcessManager.Manager.ThreadNextGet` is the imperative form and is proved equal to `Pass`.
 */
module SchedulerSpec {
  import opened Types

  /** The affinity word: `PM_THREAD_AFF_NONE`, or the set of the cores whose bit is on. */
  datatype Affinity = AnyCore | Cores(mask: set<nat>)

  predicate Allows(a: Affinity, cpu: nat) {
    a.AnyCore? || cpu in a.mask
  }

  datatype Thread = Thread(
    priority: SizeT,
    affinity: Affinity,
    ready: bool,
    running: bool,
    blockedBy: Option<PipeId>,
    sleepTicks: SizeT)

  type Threads = map<Tid, Thread>

  /** `procs` is the process list, each process given as its thread list; `cur` is CURRENT_THREAD. */
  datatype Sys = Sys(procs: seq<seq<Tid>>, thr: Threads, cur: seq<Option<Tid>>)

  /** All scheduled threads, in process-list order and thread-list order within a process. */
  function Flat(procs: seq<seq<Tid>>): seq<Tid> {
    if procs == [] then [] else Flat(procs[..|procs| - 1]) + procs[|procs| - 1]
  }

  ghost predicate Distinct(ids: seq<Tid>) {
    forall i, j :: 0 <= i < j < |ids| ==> ids[i] != ids[j]
  }

  ghost predicate WellFormed(s: Sys) {
    && Distinct(Flat(s.procs))
    && (forall t :: t in Flat(s.procs) ==> t in s.thr)
    && (forall c :: 0 <= c < |s.cur| && s.cur[c].Some? ==> s.cur[c].value in s.thr)
  }

  /** The visit of one thread by the scan that runs on `cpu`. */
  function Tick(t: Thread, cpu: nat): Thread {
    if !Allows(t.affinity, cpu) then t else
      var ticks := if t.sleepTicks != 0 then t.sleepTicks - 1 else 0;
      t.(sleepTicks := ticks, ready := t.blockedBy.None? && ticks == 0 && !t.running)
  }

  function ScanIds(thr: Threads, ids: seq<Tid>, cpu: nat): Threads {
    map t | t in thr :: if t in ids then Tick(thr[t], cpu) else thr[t]
  }

  predicate Candidate(t: Thread, cpu: nat) {
    Allows(t.affinity, cpu) && t.ready
  }

  /** The `max` variable of both scanning loops. */
  function Limit(thr: Threads, best: Option<Tid>): nat {
    if best.Some? && best.value in thr then thr[best.value].priority else SIZE_MAX
  }

  /** The inner loop: one process's thread list, scanned from front to back. */
  function BestOf(thr: Threads, ids: seq<Tid>, cpu: nat): Option<Tid> {
    if ids == [] then None else
      var best := BestOf(thr, ids[..|ids| - 1], cpu);
      var t := ids[|ids| - 1];
      if t in thr && Candidate(thr[t], cpu) && thr[t].priority < Limit(thr, best) then Some(t) else best
  }

  /** The outer loop: the process list, scanned from front to back. */
  function SelectOf(thr: Threads, procs: seq<seq<Tid>>, cpu: nat): Option<Tid> {
    if procs == [] then None else
      var best := SelectOf(thr, procs[..|procs| - 1], cpu);
      var mine := BestOf(thr, procs[|procs| - 1], cpu);
      if mine.Some? && Limit(thr, mine) < Limit(thr, best) then mine else best
  }

  /** The CPU gives up its current thread. */
  function Release(s: Sys, cpu: nat): Threads
    requires cpu < |s.cur|
  {
    if s.cur[cpu].Some? && s.cur[cpu].value in s.thr
    then s.thr[s.cur[cpu].value := s.thr[s.cur[cpu].value].(running := false)]
    else s.thr
  }

  function Scanned(s: Sys, cpu: nat): Threads
    requires cpu < |s.cur|
  {
    ScanIds(Release(s, cpu), Flat(s.procs), cpu)
  }

  function Selected(s: Sys, cpu: nat): Option<Tid>
    requires cpu < |s.cur|
  {
    SelectOf(Scanned(s, cpu), s.procs, cpu)
  }

  /** One pass of `cpu`. When nothing is selected the source goes on to dereference NULL; the model stops there. */
  function Pass(s: Sys, cpu: nat): Sys
    requires cpu < |s.cur|
  {
    var thr := Scanned(s, cpu);
    var sel := Selected(s, cpu);
    if sel.Some? && sel.value in thr
    then s.(thr := thr[sel.value := thr[sel.value].(running := true)], cur := s.cur[cpu := sel])
    else s.(thr := thr)
  }

  // ---------------------------------------------------------------------------------------------
  // What the two loops select

  /** `t` is the first thread of `ids` among those of the smallest priority below SIZE_MAX that may run on `cpu`. */
  ghost predicate IsFirstMinimum(thr: Threads, ids: seq<Tid>, cpu: nat, t: Tid) {
    exists i :: 0 <= i < |ids| && ids[i] == t && FirstMinimumAt(thr, ids, cpu, i)
  }

  predicate Eligible(thr: Threads, cpu: nat, t: Tid) {
    t in thr && Candidate(thr[t], cpu) && thr[t].priority < SIZE_MAX
  }

  ghost predicate FirstMinimumAt(thr: Threads, ids: seq<Tid>, cpu: nat, i: int)
    requires 0 <= i < |ids|
  {
    && Eligible(thr, cpu, ids[i])
    && (forall j :: 0 <= j < |ids| && Eligible(thr, cpu, ids[j]) ==> thr[ids[i]].priority <= thr[ids[j]].priority)
    && (forall j :: 0 <= j < i && Eligible(thr, cpu, ids[j]) ==> thr[ids[i]].priority < thr[ids[j]].priority)
  }

  lemma {:induction false} BestOfIsFirstMinimum(thr: Threads, ids: seq<Tid>, cpu: nat)
    ensures BestOf(thr, ids, cpu).None? <==> forall i :: 0 <= i < |ids| ==> !Eligible(thr, cpu, ids[i])
    ensures BestOf(thr, ids, cpu).Some? ==> IsFirstMinimum(thr, ids, cpu, BestOf(thr, ids, cpu).value)
  {
    if ids != [] {
      var n := |ids| - 1;
      var front := ids[..n];
      BestOfIsFirstMinimum(thr, front, cpu);
      var best := BestOf(thr, front, cpu);
      if best.Some? {
        var i :| 0 <= i < |front| && front[i] == best.value && FirstMinimumAt(thr, front, cpu, i);
        assert ids[i] == front[i];
        if BestOf(thr, ids, cpu) == best {
          assert FirstMinimumAt(thr, ids, cpu, i);
        } else {
          assert FirstMinimumAt(thr, ids, cpu, n);
        }
      } else {
        assert forall j :: 0 <= j < n ==> ids[j] == front[j];
        if BestOf(thr, ids, cpu).Some? {
          assert FirstMinimumAt(thr, ids, cpu, n);
        }
      }
    }
  }

  /** Scanning two lists one after the other is scanning the first, then the second, then comparing the winners. */
  lemma {:induction false} BestOfAppend(thr: Threads, a: seq<Tid>, b: seq<Tid>, cpu: nat)
    ensures var x, y := BestOf(thr, a, cpu), BestOf(thr, b, cpu);
            BestOf(thr, a + b, cpu) == if y.Some? && Limit(thr, y) < Limit(thr, x) then y else x
  {
    if b == [] {
      assert a + b == a;
    } else {
      var n := |b| - 1;
      BestOfAppend(thr, a, b[..n], cpu);
      assert (a + b)[..|a + b| - 1] == a + b[..n];
      BestOfInThreads(thr, b[..n], cpu);
    }
  }

  lemma {:induction false} BestOfInThreads(thr: Threads, ids: seq<Tid>, cpu: nat)
    ensures var x := BestOf(thr, ids, cpu);
            x.Some? ==> x.value in ids && x.value in thr && Limit(thr, x) < SIZE_MAX && Candidate(thr[x.value], cpu)
  {
    if ids != [] {
      BestOfInThreads(thr, ids[..|ids| - 1], cpu);
    }
  }

  /** The two-level search selects what a single scan of all threads would. */
  lemma {:induction false} TwoLevelIsFlat(thr: Threads, procs: seq<seq<Tid>>, cpu: nat)
    ensures SelectOf(thr, procs, cpu) == BestOf(thr, Flat(procs), cpu)
  {
    if procs != [] {
      TwoLevelIsFlat(thr, procs[..|procs| - 1], cpu);
      BestOfAppend(thr, Flat(procs[..|procs| - 1]), procs[|procs| - 1], cpu);
    }
  }

  /** A pass picks the first minimum-priority thread of the whole system that its CPU may run, or finds none. */
  lemma SelectedIsFirstMinimum(s: Sys, cpu: nat)
    requires cpu < |s.cur|
    ensures var thr, ids, sel := Scanned(s, cpu), Flat(s.procs), Selected(s, cpu);
            && (sel.None? <==> forall i :: 0 <= i < |ids| ==> !Eligible(thr, cpu, ids[i]))
            && (forall t: Tid :: sel == Some(t) <==> IsFirstMinimum(thr, ids, cpu, t))
  {
    var thr, ids := Scanned(s, cpu), Flat(s.procs);
    TwoLevelIsFlat(thr, s.procs, cpu);
    BestOfIsFirstMinimum(thr, ids, cpu);
    forall t: Tid, u: Tid | IsFirstMinimum(thr, ids, cpu, t) && IsFirstMinimum(thr, ids, cpu, u)
      ensures t == u
    {
      FirstMinimumUnique(thr, ids, cpu, t, u);
    }
  }

  lemma FirstMinimumUnique(thr: Threads, ids: seq<Tid>, cpu: nat, t: Tid, u: Tid)
    requires IsFirstMinimum(thr, ids, cpu, t) && IsFirstMinimum(thr, ids, cpu, u)
    ensures t == u
  {
    var i :| 0 <= i < |ids| && ids[i] == t && FirstMinimumAt(thr, ids, cpu, i);
    var j :| 0 <= j < |ids| && ids[j] == u && FirstMinimumAt(thr, ids, cpu, j);
    assert i == j;
  }

  // ---------------------------------------------------------------------------------------------
  // The scans look only at the threads they visit

  lemma {:induction false} BestOfCongruence(thr: Threads, thr': Threads, ids: seq<Tid>, cpu: nat)
    requires forall t :: t in ids ==> t in thr && t in thr' && thr[t] == thr'[t]
    ensures BestOf(thr, ids, cpu) == BestOf(thr', ids, cpu)
  {
    if ids != [] {
      BestOfCongruence(thr, thr', ids[..|ids| - 1], cpu);
      BestOfInThreads(thr, ids[..|ids| - 1], cpu);
    }
  }

  lemma {:induction false} FlatMember(procs: seq<seq<Tid>>, t: Tid)
    ensures t in Flat(procs) <==> exists i :: 0 <= i < |procs| && t in procs[i]
  {
    if procs != [] {
      var n := |procs| - 1;
      FlatMember(procs[..n], t);
      if t in Flat(procs[..n]) {
        var i :| 0 <= i < n && t in procs[..n][i];
        assert t in procs[i];
      } else if t !in procs[n] {
        assert forall i :: 0 <= i < n ==> procs[..n][i] == procs[i];
      }
    }
  }

  /** How many threads the first `i` processes have. */
  function Start(procs: seq<seq<Tid>>, i: nat): nat
    requires i <= |procs|
  {
    if i == 0 then 0 else Start(procs, i - 1) + |procs[i - 1]|
  }

  lemma {:induction false} StartRises(procs: seq<seq<Tid>>, i: nat, j: nat)
    requires i < j <= |procs|
    ensures Start(procs, i) + |procs[i]| <= Start(procs, j)
  {
    if i < j - 1 {
      StartRises(procs, i, j - 1);
    }
  }

  lemma {:induction false} StartOfFront(procs: seq<seq<Tid>>, n: nat, i: nat)
    requires i <= n <= |procs|
    ensures Start(procs[..n], i) == Start(procs, i)
  {
    if i > 0 {
      StartOfFront(procs, n, i - 1);
    }
  }

  lemma {:induction false} FlatSize(procs: seq<seq<Tid>>)
    ensures |Flat(procs)| == Start(procs, |procs|)
  {
    if procs != [] {
      FlatSize(procs[..|procs| - 1]);
      StartOfFront(procs, |procs| - 1, |procs| - 1);
    }
  }

  lemma {:induction false} FlatPlace(procs: seq<seq<Tid>>, i: nat, k: nat)
    requires i < |procs| && k < |procs[i]|
    ensures Start(procs, i) + k < |Flat(procs)| && Flat(procs)[Start(procs, i) + k] == procs[i][k]
    decreases |procs|
  {
    var n := |procs| - 1;
    FlatSize(procs[..n]);
    StartOfFront(procs, n, n);
    if i < n {
      FlatPlace(procs[..n], i, k);
      StartOfFront(procs, n, i);
    }
  }

  /** The process and the place in its list of the thread at a position. */
  lemma {:induction false} PlaceAt(procs: seq<seq<Tid>>, m: nat) returns (i: nat, k: nat)
    requires m < |Flat(procs)|
    ensures i < |procs| && k < |procs[i]| && m == Start(procs, i) + k && Flat(procs)[m] == procs[i][k]
    decreases |procs|
  {
    var n := |procs| - 1;
    FlatSize(procs[..n]);
    StartOfFront(procs, n, n);
    if m < |Flat(procs[..n])| {
      i, k := PlaceAt(procs[..n], m);
      StartOfFront(procs, n, i);
    } else {
      i, k := n, m - |Flat(procs[..n])|;
    }
  }

  /** `t` is in an earlier process of the list than `u`, or earlier in the same process's list. */
  ghost predicate Ahead(procs: seq<seq<Tid>>, t: Tid, u: Tid) {
    exists i: nat, k: nat, j: nat, l: nat ::
      && i < |procs| && k < |procs[i]| && j < |procs| && l < |procs[j]|
      && procs[i][k] == t && procs[j][l] == u && (i < j || (i == j && k < l))
  }

  /** The order of the flat list is process-list order, then thread-list order. */
  lemma FlatInOrder(procs: seq<seq<Tid>>, t: Tid, u: Tid)
    ensures (exists m, n :: 0 <= m < n < |Flat(procs)| && Flat(procs)[m] == t && Flat(procs)[n] == u)
            <==> Ahead(procs, t, u)
  {
    if m, n :| 0 <= m < n < |Flat(procs)| && Flat(procs)[m] == t && Flat(procs)[n] == u {
      var i, k := PlaceAt(procs, m);
      var j, l := PlaceAt(procs, n);
      if j < i {
        StartRises(procs, j, i);
      }
    }
    if i: nat, k: nat, j: nat, l: nat :|
        && i < |procs| && k < |procs[i]| && j < |procs| && l < |procs[j]|
        && procs[i][k] == t && procs[j][l] == u && (i < j || (i == j && k < l))
    {
      FlatPlace(procs, i, k);
      FlatPlace(procs, j, l);
      if i < j {
        StartRises(procs, i, j);
      }
    }
  }

  /** Every thread occurs once: once in its own process, and in no other process. */
  ghost predicate Partitioned(procs: seq<seq<Tid>>) {
    && (forall i :: 0 <= i < |procs| ==> Distinct(procs[i]))
    && (forall i, j, t :: 0 <= i < j < |procs| && t in procs[i] ==> t !in procs[j])
  }

  lemma {:induction false} FlatDistinct(procs: seq<seq<Tid>>)
    ensures Distinct(Flat(procs)) <==> Partitioned(procs)
  {
    if procs != [] {
      var n := |procs| - 1;
      var front, last := procs[..n], procs[n];
      FlatDistinct(front);
      forall t ensures t in Flat(front) <==> exists i :: 0 <= i < n && t in procs[i] {
        FlatMember(front, t);
        assert forall i :: 0 <= i < n ==> front[i] == procs[i];
      }
      assert Partitioned(procs) <==>
             (Partitioned(front) && Distinct(last) && forall t :: t in Flat(front) ==> t !in last) by {
        assert forall i :: 0 <= i < n ==> front[i] == procs[i];
      }
      ConcatDistinct(Flat(front), last);
    }
  }

  lemma ConcatDistinct(a: seq<Tid>, b: seq<Tid>)
    ensures Distinct(a + b) <==> (Distinct(a) && Distinct(b) && forall t :: t in a ==> t !in b)
  {
    var c := a + b;
    if Distinct(c) {
      assert forall i :: 0 <= i < |a| ==> a[i] == c[i];
      forall i, j | 0 <= i < j < |b| ensures b[i] != b[j] {
        assert c[|a| + i] != c[|a| + j];
      }
      forall i, j | 0 <= i < |a| && 0 <= j < |b| ensures a[i] != b[j] {
        assert c[i] != c[|a| + j];
      }
    } else {
      var i, j :| 0 <= i < j < |c| && c[i] == c[j];
      if j < |a| {
        assert a[i] == a[j];
      } else if i >= |a| {
        assert b[i - |a|] == b[j - |a|];
      } else {
        assert a[i] in a && b[j - |a|] == a[i];
      }
    }
  }
}
