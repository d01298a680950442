/**
 The kernel's spin locks. Every operation of the two managers is written out as the sequence of locks it takes and
 gives up and of the shared memory it uses in between; the CPUs run such operations side by side, one action at a time,
 waiting while a lock is taken. Every use is under the locks it needs, and no interleaving can get stuck.
 */
module LockOrder {
  import opened Types

  datatype Lock =
    | PipeListLock
    | ProcessListLock
    | ProcessLock(process: nat)
    | PipeLock(pipe: PipeId)
    | ReadersLock(pipe: PipeId)
    | WritersLock(pipe: PipeId)
    | ThreadLock(thread: Tid)

  /** The uses of shared memory. A walk over a list is one use of it. */
  datatype Access =
    | SearchPipes
    | TakeId
    | LinkPipe
    | UseRing(pipe: PipeId)
    | JoinReaders(pipe: PipeId, thread: Tid)
    | JoinWriters(pipe: PipeId, thread: Tid)
    | MarkBlocked(pipe: PipeId, thread: Tid)
    | WakeReader(pipe: PipeId, thread: Tid)
    | WakeWriter(pipe: PipeId, thread: Tid)
    | ClearReaders(pipe: PipeId)
    | ClearWriters(pipe: PipeId)
    | ReadProcesses
    | LinkProcess
    | ReadThreads(process: nat)
    | LinkThread(process: nat)
    | Visit(process: nat, thread: Tid)
    | SetRunning(thread: Tid)
    | ClearRunning(thread: Tid)
    | SetSleep(thread: Tid)

  /** The locks that a use needs, outermost first: those of the objects it is reached through, then the object's own. */
  function Needed(a: Access): seq<Lock> {
    match a
    case SearchPipes => [PipeListLock]
    case TakeId => [PipeListLock]
    case LinkPipe => [PipeListLock]
    case UseRing(p) => [PipeLock(p)]
    case JoinReaders(p, _) => [PipeLock(p), ReadersLock(p)]
    case JoinWriters(p, _) => [PipeLock(p), WritersLock(p)]
    case MarkBlocked(p, t) => [PipeLock(p), ThreadLock(t)]
    case WakeReader(p, t) => [PipeLock(p), ReadersLock(p), ThreadLock(t)]
    case WakeWriter(p, t) => [PipeLock(p), WritersLock(p), ThreadLock(t)]
    case ClearReaders(p) => [PipeLock(p), ReadersLock(p)]
    case ClearWriters(p) => [PipeLock(p), WritersLock(p)]
    case ReadProcesses => [ProcessListLock]
    case LinkProcess => [ProcessListLock]
    case ReadThreads(p) => [ProcessListLock, ProcessLock(p)]
    case LinkThread(p) => [ProcessLock(p)]
    case Visit(p, t) => [ProcessListLock, ProcessLock(p), ThreadLock(t)]
    case SetRunning(t) => [ProcessListLock, ThreadLock(t)]
    case ClearRunning(t) => [ProcessListLock, ThreadLock(t)]
    case SetSleep(t) => [ThreadLock(t)]
  }

  datatype Action = Acq(lock: Lock) | Rel(lock: Lock) | Do(access: Access)

  /** The order in which the source takes locks of different kinds. */
  function Rank(l: Lock): nat {
    match l
    case PipeListLock => 0
    case ProcessListLock => 1
    case ProcessLock(_) => 2
    case PipeLock(_) => 3
    case ReadersLock(_) => 4
    case WritersLock(_) => 4
    case ThreadLock(_) => 5
  }

  // ---------------------------------------------------------------------------------------------
  // The operations. Lists, current threads and outcomes are whatever the operation happens to find.

  datatype Operation =
    | NextThread(current: Option<Tid>, procs: seq<(nat, seq<Tid>)>, selected: Tid)
    | AppendProcess
    | AppendThread(process: nat)
    | SleepCall(thread: Tid)
    | CreatePipe
    | LookupPipe
    | WriteTooLarge
    | WriteThrough(pipe: PipeId, readers: seq<Tid>)
    | WriteFull(pipe: PipeId, from: Tid)
    | ReadThrough(pipe: PipeId, writers: seq<Tid>)
    | ReadEmpty(pipe: PipeId, to: Tid)

  /** What each operation does to shared memory, in order, with no regard to locks. */
  function Accesses(op: Operation): seq<Access> {
    match op
    case NextThread(current, procs, selected) =>
      (if current.Some? then [ClearRunning(current.value)] else [])
      + [ReadProcesses] + PassAccesses(procs) + [SetRunning(selected)]
    case AppendProcess => [LinkProcess]
    case AppendThread(p) => [LinkThread(p)]
    case SleepCall(t) => [SetSleep(t)]
    case CreatePipe => [TakeId, LinkPipe]
    case LookupPipe => [SearchPipes]
    case WriteTooLarge => [SearchPipes]
    case WriteThrough(p, readers) =>
      [SearchPipes, UseRing(p)] + WakeReaders(p, readers) + [ClearReaders(p)]
    case WriteFull(p, from) => [SearchPipes, UseRing(p), JoinWriters(p, from), MarkBlocked(p, from)]
    case ReadThrough(p, writers) =>
      [SearchPipes, UseRing(p)] + WakeWriters(p, writers) + [ClearWriters(p)]
    case ReadEmpty(p, to) => [SearchPipes, UseRing(p), JoinReaders(p, to), MarkBlocked(p, to)]
  }

  /** A waiting list is notified from its end. */
  function WakeReaders(p: PipeId, threads: seq<Tid>): seq<Access> {
    seq(|threads|, i requires 0 <= i < |threads| => WakeReader(p, threads[|threads| - 1 - i]))
  }

  function WakeWriters(p: PipeId, threads: seq<Tid>): seq<Access> {
    seq(|threads|, i requires 0 <= i < |threads| => WakeWriter(p, threads[|threads| - 1 - i]))
  }

  /** Every thread of a process, from the front of its list. */
  function Visits(p: nat, threads: seq<Tid>): seq<Access> {
    seq(|threads|, i requires 0 <= i < |threads| => Visit(p, threads[i]))
  }

  /** Every process of the list. */
  function PassAccesses(procs: seq<(nat, seq<Tid>)>): seq<Access> {
    if procs == [] then [] else
      [ReadThreads(procs[0].0)] + Visits(procs[0].0, procs[0].1) + PassAccesses(procs[1..])
  }

  function Locked(l: Lock, inner: seq<Action>): seq<Action> {
    [Acq(l)] + inner + [Rel(l)]
  }

  /** One use of memory under one more lock. */
  function Brief(l: Lock, a: Access): seq<Action> {
    Locked(l, [Do(a)])
  }

  function EachThread(p: nat, threads: seq<Tid>): seq<Action> {
    if threads == [] then [] else Brief(ThreadLock(threads[0]), Visit(p, threads[0])) + EachThread(p, threads[1..])
  }

  function ReleaseCurrent(current: Option<Tid>): seq<Action> {
    if current.Some? then Brief(ThreadLock(current.value), ClearRunning(current.value)) else []
  }

  /** `process_scheduler_run`. */
  function EachOf(p: nat, threads: seq<Tid>): seq<Action> {
    Locked(ProcessLock(p), [Do(ReadThreads(p))] + EachThread(p, threads))
  }

  function EachProcess(procs: seq<(nat, seq<Tid>)>): seq<Action> {
    if procs == [] then [] else
      EachOf(procs[0].0, procs[0].1) + EachProcess(procs[1..])
  }

  function Wake(l: Lock, t: Tid): Access
    requires l.ReadersLock? || l.WritersLock?
  {
    if l.ReadersLock? then WakeReader(l.pipe, t) else WakeWriter(l.pipe, t)
  }

  function Wakes(l: Lock, threads: seq<Tid>): (s: seq<Access>)
    requires l.ReadersLock? || l.WritersLock?
    ensures |s| == |threads| && forall i :: 0 <= i < |s| ==> s[i] == Wake(l, threads[|threads| - 1 - i])
  {
    if l.ReadersLock? then WakeReaders(l.pipe, threads) else WakeWriters(l.pipe, threads)
  }

  function Join(l: Lock, t: Tid): Access
    requires l.ReadersLock? || l.WritersLock?
  {
    if l.ReadersLock? then JoinReaders(l.pipe, t) else JoinWriters(l.pipe, t)
  }

  function Clear(l: Lock): Access
    requires l.ReadersLock? || l.WritersLock?
  {
    if l.ReadersLock? then ClearReaders(l.pipe) else ClearWriters(l.pipe)
  }

  /** `rw_list_recurse_notify`: down the list, and the thread's own notification on the way back. */
  function NotifyEach(l: Lock, threads: seq<Tid>): seq<Action>
    requires l.ReadersLock? || l.WritersLock?
  {
    if threads == [] then [] else
      NotifyEach(l, threads[1..]) + Brief(ThreadLock(threads[0]), Wake(l, threads[0]))
  }

  function NotifyList(l: Lock, threads: seq<Tid>): seq<Action>
    requires l.ReadersLock? || l.WritersLock?
  {
    Locked(l, NotifyEach(l, threads) + [Do(Clear(l))])
  }

  /** The refused caller goes to the end of a list and is marked. */
  function Park(l: Lock, t: Tid): seq<Action>
    requires l.ReadersLock? || l.WritersLock?
  {
    Brief(l, Join(l, t)) + Brief(ThreadLock(t), MarkBlocked(l.pipe, t))
  }

  /** Look the pipe up, then work under its lock. */
  function PipeCall(p: PipeId, rest: seq<Action>): seq<Action> {
    Brief(PipeListLock, SearchPipes) + Locked(PipeLock(p), [Do(UseRing(p))] + rest)
  }

  function Pass(current: Option<Tid>, procs: seq<(nat, seq<Tid>)>, selected: Tid): seq<Action> {
    ReleaseCurrent(current) + [Do(ReadProcesses)] + EachProcess(procs)
    + Brief(ThreadLock(selected), SetRunning(selected))
  }

  function Program(op: Operation): seq<Action> {
    match op
    case NextThread(current, procs, selected) => Locked(ProcessListLock, Pass(current, procs, selected))
    case AppendProcess => Brief(ProcessListLock, LinkProcess)
    case AppendThread(p) => Brief(ProcessLock(p), LinkThread(p))
    case SleepCall(t) => Brief(ThreadLock(t), SetSleep(t))
    case CreatePipe => Brief(PipeListLock, TakeId) + Brief(PipeListLock, LinkPipe)
    case LookupPipe => Brief(PipeListLock, SearchPipes)
    case WriteTooLarge => Brief(PipeListLock, SearchPipes)
    case WriteThrough(p, readers) => PipeCall(p, NotifyList(ReadersLock(p), readers))
    case WriteFull(p, from) => PipeCall(p, Park(WritersLock(p), from))
    case ReadThrough(p, writers) => PipeCall(p, NotifyList(WritersLock(p), writers))
    case ReadEmpty(p, to) => PipeCall(p, Park(ReadersLock(p), to))
  }

  // ---------------------------------------------------------------------------------------------
  // Every program takes locks in rank order, gives up the one it took last, and uses memory under just the locks
  // that the use needs

  /** `held` is the stack of locks held, the latest last. */
  predicate Ordered(prog: seq<Action>, held: seq<Lock>)
    decreases |prog|
  {
    if prog == [] then held == [] else
      match prog[0]
      case Acq(l) => Above(l, held) && Ordered(prog[1..], held + [l])
      case Rel(l) => held != [] && held[|held| - 1] == l && Ordered(prog[1..], held[..|held| - 1])
      case Do(a) => held == Needed(a) && Ordered(prog[1..], held)
  }

  predicate Above(l: Lock, held: seq<Lock>) {
    forall i :: 0 <= i < |held| ==> Rank(held[i]) < Rank(l)
  }

  /** The uses of memory in a program. */
  function Uses(prog: seq<Action>): seq<Access> {
    if prog == [] then [] else (if prog[0].Do? then [prog[0].access] else []) + Uses(prog[1..])
  }

  /** No lock is given up as soon as it is taken. */
  predicate NoIdleLock(prog: seq<Action>) {
    forall i {:trigger prog[i]} :: 0 <= i < |prog| && prog[i].Acq? ==> i + 1 < |prog| && !prog[i + 1].Rel?
  }

  /** A piece that takes its locks in order, leaves the stack as it found it, and makes just these uses. */
  ghost predicate Neutral(piece: seq<Action>, held: seq<Lock>, uses: seq<Access>) {
    && (forall more :: Ordered(piece + more, held) <==> Ordered(more, held))
    && Uses(piece) == uses
    && NoIdleLock(piece) && (piece != [] ==> !piece[0].Rel?)
  }

  lemma {:induction false} UsesConcat(a: seq<Action>, b: seq<Action>)
    ensures Uses(a + b) == Uses(a) + Uses(b)
  {
    if a == [] {
      assert a + b == b;
    } else {
      assert (a + b)[1..] == a[1..] + b;
      UsesConcat(a[1..], b);
    }
  }

  lemma NeutralConcat(a: seq<Action>, b: seq<Action>, held: seq<Lock>, u: seq<Access>, v: seq<Access>)
    requires Neutral(a, held, u) && Neutral(b, held, v)
    ensures Neutral(a + b, held, u + v)
  {
    OrderedConcat(a, b, held);
    UsesConcat(a, b);
    NoIdleConcat(a, b);
    assert a + b != [] ==> (a + b)[0] == if a != [] then a[0] else b[0];
  }

  lemma OrderedConcat(a: seq<Action>, b: seq<Action>, held: seq<Lock>)
    requires forall more :: Ordered(a + more, held) <==> Ordered(more, held)
    requires forall more :: Ordered(b + more, held) <==> Ordered(more, held)
    ensures forall more :: Ordered(a + b + more, held) <==> Ordered(more, held)
  {
    forall more ensures Ordered(a + b + more, held) <==> Ordered(more, held) {
      assert a + b + more == a + (b + more);
    }
  }

  lemma NoIdleConcat(a: seq<Action>, b: seq<Action>)
    requires NoIdleLock(a) && NoIdleLock(b) && (b != [] ==> !b[0].Rel?)
    ensures NoIdleLock(a + b)
  {
    var c := a + b;
    forall i {:trigger c[i]} | 0 <= i < |c| && c[i].Acq? ensures i + 1 < |c| && !c[i + 1].Rel? {
      if i < |a| {
        assert a[i].Acq? && a[i + 1] == c[i + 1];
      } else {
        assert b[i - |a|].Acq? && b[i - |a| + 1] == c[i + 1];
      }
    }
  }

  lemma EmptyNeutral(held: seq<Lock>)
    ensures Neutral([], held, [])
  {
    forall more ensures Ordered([] + more, held) <==> Ordered(more, held) {
      assert [] + more == more;
    }
  }

  lemma DoNeutral(a: Access)
    ensures Neutral([Do(a)], Needed(a), [a])
  {
    forall more ensures Ordered([Do(a)] + more, Needed(a)) <==> Ordered(more, Needed(a)) {
      assert ([Do(a)] + more)[1..] == more;
    }
  }

  /** A lock held around an inner piece. */
  lemma LockedNeutral(l: Lock, inner: seq<Action>, held: seq<Lock>, uses: seq<Access>)
    requires Above(l, held) && Neutral(inner, held + [l], uses) && inner != []
    ensures Neutral(Locked(l, inner), held, uses)
  {
    forall more ensures Ordered(Locked(l, inner) + more, held) <==> Ordered(more, held) {
      LockedOrdered(l, inner, held, more);
    }
    UsesConcat([Acq(l)] + inner, [Rel(l)]);
    UsesConcat([Acq(l)], inner);
  }

  lemma LockedOrdered(l: Lock, inner: seq<Action>, held: seq<Lock>, more: seq<Action>)
    requires Above(l, held) && (forall rest :: Ordered(inner + rest, held + [l]) <==> Ordered(rest, held + [l]))
    ensures Ordered(Locked(l, inner) + more, held) <==> Ordered(more, held)
  {
    var tail := [Rel(l)] + more;
    var prog := Locked(l, inner) + more;
    assert prog[1..] == inner + tail;
    assert Ordered(inner + tail, held + [l]) <==> Ordered(tail, held + [l]);
    assert tail[1..] == more;
    assert (held + [l])[..|held|] == held;
  }

  lemma BriefNeutral(l: Lock, a: Access, held: seq<Lock>)
    requires Above(l, held) && Needed(a) == held + [l]
    ensures Neutral(Brief(l, a), held, [a])
  {
    DoNeutral(a);
    LockedNeutral(l, [Do(a)], held, [a]);
  }

  lemma {:induction false} EachThreadNeutral(p: nat, threads: seq<Tid>)
    ensures Neutral(EachThread(p, threads), [ProcessListLock, ProcessLock(p)],
                    Visits(p, threads))
  {
    var held := [ProcessListLock, ProcessLock(p)];
    if threads == [] {
      EmptyNeutral(held);
    } else {
      var t, rest := threads[0], threads[1..];
      BriefNeutral(ThreadLock(t), Visit(p, t), held);
      EachThreadNeutral(p, rest);
      NeutralConcat(Brief(ThreadLock(t), Visit(p, t)), EachThread(p, rest), held, [Visit(p, t)],
                    Visits(p, rest));
      assert [Visit(p, t)] + Visits(p, rest)
          == Visits(p, threads);
    }
  }

  lemma ProcessNeutral(p: nat, threads: seq<Tid>)
    ensures Neutral(EachOf(p, threads), [ProcessListLock], [ReadThreads(p)] + Visits(p, threads))
  {
    var visits := Visits(p, threads);
    DoNeutral(ReadThreads(p));
    EachThreadNeutral(p, threads);
    NeutralConcat([Do(ReadThreads(p))], EachThread(p, threads), [ProcessListLock, ProcessLock(p)], [ReadThreads(p)],
                  visits);
    assert [ProcessListLock] + [ProcessLock(p)] == [ProcessListLock, ProcessLock(p)];
    LockedNeutral(ProcessLock(p), [Do(ReadThreads(p))] + EachThread(p, threads), [ProcessListLock],
                  [ReadThreads(p)] + visits);
  }

  lemma {:induction false} EachProcessNeutral(procs: seq<(nat, seq<Tid>)>)
    ensures Neutral(EachProcess(procs), [ProcessListLock], PassAccesses(procs))
  {
    if procs == [] {
      EmptyNeutral([ProcessListLock]);
    } else {
      var (p, threads) := procs[0];
      ProcessNeutral(p, threads);
      EachProcessNeutral(procs[1..]);
      NeutralConcat(EachOf(p, threads), EachProcess(procs[1..]), [ProcessListLock],
                    [ReadThreads(p)] + Visits(p, threads), PassAccesses(procs[1..]));
    }
  }

  lemma {:induction false} NotifyEachNeutral(l: Lock, threads: seq<Tid>)
    requires l.ReadersLock? || l.WritersLock?
    ensures Neutral(NotifyEach(l, threads), [PipeLock(l.pipe), l],
                    Wakes(l, threads))
  {
    var held := [PipeLock(l.pipe), l];
    if threads == [] {
      EmptyNeutral(held);
    } else {
      var t, rest := threads[0], threads[1..];
      BriefNeutral(ThreadLock(t), Wake(l, t), held);
      NotifyEachNeutral(l, rest);
      var before := Wakes(l, rest);
      NeutralConcat(NotifyEach(l, rest), Brief(ThreadLock(t), Wake(l, t)), held, before, [Wake(l, t)]);
      assert before + [Wake(l, t)]
          == Wakes(l, threads);
    }
  }

  lemma NotifyNeutral(l: Lock, threads: seq<Tid>)
    requires l.ReadersLock? || l.WritersLock?
    ensures Neutral(NotifyList(l, threads), [PipeLock(l.pipe)],
                    Wakes(l, threads) + [Clear(l)])
  {
    var wakes := Wakes(l, threads);
    NotifyEachNeutral(l, threads);
    DoNeutral(Clear(l));
    NeutralConcat(NotifyEach(l, threads), [Do(Clear(l))], [PipeLock(l.pipe), l], wakes, [Clear(l)]);
    assert [PipeLock(l.pipe)] + [l] == [PipeLock(l.pipe), l];
    LockedNeutral(l, NotifyEach(l, threads) + [Do(Clear(l))], [PipeLock(l.pipe)], wakes + [Clear(l)]);
  }

  lemma ParkNeutral(l: Lock, t: Tid)
    requires l.ReadersLock? || l.WritersLock?
    ensures Neutral(Park(l, t), [PipeLock(l.pipe)], [Join(l, t), MarkBlocked(l.pipe, t)])
  {
    var held := [PipeLock(l.pipe)];
    BriefNeutral(l, Join(l, t), held);
    BriefNeutral(ThreadLock(t), MarkBlocked(l.pipe, t), held);
    NeutralConcat(Brief(l, Join(l, t)), Brief(ThreadLock(t), MarkBlocked(l.pipe, t)), held, [Join(l, t)],
                  [MarkBlocked(l.pipe, t)]);
  }

  lemma PipeCallNeutral(p: PipeId, rest: seq<Action>, uses: seq<Access>)
    requires Neutral(rest, [PipeLock(p)], uses)
    ensures Neutral(PipeCall(p, rest), [], [SearchPipes, UseRing(p)] + uses)
  {
    BriefNeutral(PipeListLock, SearchPipes, []);
    DoNeutral(UseRing(p));
    NeutralConcat([Do(UseRing(p))], rest, [PipeLock(p)], [UseRing(p)], uses);
    assert [] + [PipeLock(p)] == [PipeLock(p)];
    LockedNeutral(PipeLock(p), [Do(UseRing(p))] + rest, [], [UseRing(p)] + uses);
    NeutralConcat(Brief(PipeListLock, SearchPipes), Locked(PipeLock(p), [Do(UseRing(p))] + rest), [], [SearchPipes],
                  [UseRing(p)] + uses);
    assert [SearchPipes] + ([UseRing(p)] + uses) == [SearchPipes, UseRing(p)] + uses;
  }

  lemma ReleaseNeutral(current: Option<Tid>)
    ensures Neutral(ReleaseCurrent(current), [ProcessListLock],
                    if current.Some? then [ClearRunning(current.value)] else [])
  {
    if current.Some? {
      BriefNeutral(ThreadLock(current.value), ClearRunning(current.value), [ProcessListLock]);
    } else {
      EmptyNeutral([ProcessListLock]);
    }
  }

  lemma ConcatFour(a: seq<Action>, b: seq<Action>, c: seq<Action>, d: seq<Action>, held: seq<Lock>,
                   u: seq<Access>, v: seq<Access>, w: seq<Access>, x: seq<Access>)
    requires Neutral(a, held, u) && Neutral(b, held, v) && Neutral(c, held, w) && Neutral(d, held, x)
    ensures Neutral(a + b + c + d, held, u + v + w + x)
  {
    NeutralConcat(a, b, held, u, v);
    NeutralConcat(a + b, c, held, u + v, w);
    NeutralConcat(a + b + c, d, held, u + v + w, x);
  }

  /** What a pass does under the process-list lock. */
  lemma PassNeutral(current: Option<Tid>, procs: seq<(nat, seq<Tid>)>, selected: Tid)
    ensures Neutral(Pass(current, procs, selected), [ProcessListLock], Accesses(NextThread(current, procs, selected)))
  {
    ReleaseNeutral(current);
    DoNeutral(ReadProcesses);
    EachProcessNeutral(procs);
    BriefNeutral(ThreadLock(selected), SetRunning(selected), [ProcessListLock]);
    ConcatFour(ReleaseCurrent(current), [Do(ReadProcesses)], EachProcess(procs),
               Brief(ThreadLock(selected), SetRunning(selected)), [ProcessListLock],
               if current.Some? then [ClearRunning(current.value)] else [], [ReadProcesses], PassAccesses(procs),
               [SetRunning(selected)]);
  }

  lemma ProgramNeutral(op: Operation)
    ensures Neutral(Program(op), [], Accesses(op))
  {
    match op
    case NextThread(current, procs, selected) =>
      PassNeutral(current, procs, selected);
      assert [] + [ProcessListLock] == [ProcessListLock];
      LockedNeutral(ProcessListLock, Pass(current, procs, selected), [], Accesses(op));
    case WriteThrough(p, readers) => NotifyingCall(p, ReadersLock(p), readers, op);
    case ReadThrough(p, writers) => NotifyingCall(p, WritersLock(p), writers, op);
    case WriteFull(p, t) => WaitingCall(p, WritersLock(p), t, op);
    case ReadEmpty(p, t) => WaitingCall(p, ReadersLock(p), t, op);
    case CreatePipe =>
      BriefNeutral(PipeListLock, TakeId, []);
      BriefNeutral(PipeListLock, LinkPipe, []);
      NeutralConcat(Brief(PipeListLock, TakeId), Brief(PipeListLock, LinkPipe), [], [TakeId], [LinkPipe]);
    case _ => SingleNeutral(op);
  }

  lemma SingleNeutral(op: Operation)
    requires op.AppendProcess? || op.AppendThread? || op.SleepCall? || op.LookupPipe? || op.WriteTooLarge?
    ensures Neutral(Program(op), [], Accesses(op))
  {
    match op
    case AppendProcess => BriefNeutral(ProcessListLock, LinkProcess, []);
    case AppendThread(p) => BriefNeutral(ProcessLock(p), LinkThread(p), []);
    case SleepCall(t) => BriefNeutral(ThreadLock(t), SetSleep(t), []);
    case _ => BriefNeutral(PipeListLock, SearchPipes, []);
  }

  lemma NotifyingCall(p: PipeId, l: Lock, threads: seq<Tid>, op: Operation)
    requires op.WriteThrough? || op.ReadThrough?
    requires op.WriteThrough? ==> op.pipe == p && op.readers == threads && l == ReadersLock(p)
    requires op.ReadThrough? ==> op.pipe == p && op.writers == threads && l == WritersLock(p)
    ensures Neutral(Program(op), [], Accesses(op))
  {
    NotifyNeutral(l, threads);
    PipeCallNeutral(p, NotifyList(l, threads), Wakes(l, threads) + [Clear(l)]);
    assert [SearchPipes, UseRing(p)] + (Wakes(l, threads) + [Clear(l)]) == Accesses(op);
  }

  lemma WaitingCall(p: PipeId, l: Lock, t: Tid, op: Operation)
    requires (op == WriteFull(p, t) && l == WritersLock(p)) || (op == ReadEmpty(p, t) && l == ReadersLock(p))
    ensures Neutral(Program(op), [], Accesses(op))
  {
    ParkNeutral(l, t);
    PipeCallNeutral(p, Park(l, t), [Join(l, t), MarkBlocked(p, t)]);
  }

  /**
   Every operation, whatever it finds, takes its locks in strictly rising rank, so never two of one kind at once; it
   does to shared memory just what it has to, each use under exactly the locks that the use needs; and it ends with
   none.
   */
  lemma ProgramOrdered(op: Operation)
    ensures Ordered(Program(op), []) && Uses(Program(op)) == Accesses(op)
  {
    ProgramNeutral(op);
    assert Program(op) + [] == Program(op);
    assert Ordered([], []);
  }

  /** A use in an ordered program comes after its locks have been taken. */
  lemma {:induction false} LockIsTaken(prog: seq<Action>, held: seq<Lock>, a: Access, l: Lock)
    requires Ordered(prog, held) && a in Uses(prog) && l in Needed(a)
    ensures l in held || Acq(l) in prog
    decreases |prog|
  {
    match prog[0]
    case Acq(k) => LockIsTaken(prog[1..], held + [k], a, l);
    case Rel(k) => LockIsTaken(prog[1..], held[..|held| - 1], a, l);
    case Do(b) =>
      if a != b {
        LockIsTaken(prog[1..], held, a, l);
      }
  }

  /** A lock that is held before the next action that is not taking a lock is needed by it, if that is a use. */
  lemma {:induction false} LockIsUsed(prog: seq<Action>, held: seq<Lock>, l: Lock)
    requires Ordered(prog, held) && NoIdleLock(prog) && l in held && prog != [] && !prog[0].Rel?
    ensures exists a :: a in Uses(prog) && l in Needed(a)
    decreases |prog|
  {
    if prog[0].Acq? {
      assert NoIdleLock(prog[1..]);
      LockIsUsed(prog[1..], held + [prog[0].lock], l);
      var a :| a in Uses(prog[1..]) && l in Needed(a);
      assert a in Uses(prog);
    } else {
      assert prog[0].access in Uses(prog);
    }
  }

  lemma {:induction false} EveryLockIsUsed(prog: seq<Action>, held: seq<Lock>, l: Lock)
    requires Ordered(prog, held) && NoIdleLock(prog) && Acq(l) in prog
    ensures exists a :: a in Uses(prog) && l in Needed(a)
    decreases |prog|
  {
    var rest := prog[1..];
    assert NoIdleLock(rest);
    if prog[0] == Acq(l) {
      LockIsUsed(rest, held + [l], l);
    } else {
      var held' := match prog[0] { case Acq(k) => held + [k] case Rel(_) => held[..|held| - 1] case Do(_) => held };
      EveryLockIsUsed(rest, held', l);
    }
    var a :| a in Uses(rest) && l in Needed(a);
    assert a in Uses(prog);
  }

  /** An operation takes a lock if and only if something that it does needs the lock. */
  lemma LocksExactly(op: Operation, l: Lock)
    ensures Acq(l) in Program(op) <==> exists a :: a in Accesses(op) && l in Needed(a)
  {
    ProgramOrdered(op);
    ProgramNeutral(op);
    if Acq(l) in Program(op) {
      EveryLockIsUsed(Program(op), [], l);
    }
    if a :| a in Accesses(op) && l in Needed(a) {
      LockIsTaken(Program(op), [], a, l);
    }
  }

  // ---------------------------------------------------------------------------------------------
  // The CPUs, one action at a time

  datatype Cpu = Cpu(held: seq<Lock>, todo: seq<Action>)

  predicate Owns(cpus: seq<Cpu>, c: nat, l: Lock) {
    c < |cpus| && l in cpus[c].held
  }

  /** The CPU wants a lock that another CPU, or it itself, has. */
  ghost predicate WaitsFor(cpus: seq<Cpu>, c: nat, d: nat) {
    c < |cpus| && cpus[c].todo != [] && cpus[c].todo[0].Acq? && Owns(cpus, d, cpus[c].todo[0].lock)
  }

  ghost predicate CanStep(cpus: seq<Cpu>, c: nat) {
    c < |cpus| && cpus[c].todo != [] && forall d :: !WaitsFor(cpus, c, d)
  }

  function Stepped(cpu: Cpu): Cpu
    requires cpu.todo != []
  {
    match cpu.todo[0]
    case Acq(l) => Cpu(cpu.held + [l], cpu.todo[1..])
    case Rel(_) => Cpu(if cpu.held == [] then [] else cpu.held[..|cpu.held| - 1], cpu.todo[1..])
    case Do(_) => Cpu(cpu.held, cpu.todo[1..])
  }

  datatype Event = Start(cpu: nat, op: Operation) | Move(cpu: nat)

  ghost predicate Enabled(cpus: seq<Cpu>, e: Event) {
    match e
    case Start(c, _) => c < |cpus| && cpus[c].todo == []
    case Move(c) => CanStep(cpus, c)
  }

  ghost function Next(cpus: seq<Cpu>, e: Event): seq<Cpu>
    requires Enabled(cpus, e)
  {
    match e
    case Start(c, op) => cpus[c := cpus[c].(todo := Program(op))]
    case Move(c) => cpus[c := Stepped(cpus[c])]
  }

  ghost predicate IsRun(ss: seq<seq<Cpu>>, es: seq<Event>) {
    && |ss| == |es| + 1
    && (forall c :: 0 <= c < |ss[0]| ==> ss[0][c] == Cpu([], []))
    && forall i :: 0 <= i < |es| ==> Enabled(ss[i], es[i]) && ss[i + 1] == Next(ss[i], es[i])
  }

  /** Each CPU is somewhere in an ordered program, and no lock is held twice. */
  ghost predicate Sound(cpus: seq<Cpu>) {
    && (forall c :: 0 <= c < |cpus| ==> Ordered(cpus[c].todo, cpus[c].held))
    && (forall c, d, l :: 0 <= c < d < |cpus| && l in cpus[c].held ==> l !in cpus[d].held)
  }

  lemma NextSound(cpus: seq<Cpu>, e: Event)
    requires Sound(cpus) && Enabled(cpus, e)
    ensures Sound(Next(cpus, e))
  {
    var cpus' := Next(cpus, e);
    if e.Start? {
      ProgramOrdered(e.op);
      assert Ordered([], cpus[e.cpu].held);
    } else {
      var cpu := cpus[e.cpu];
      if cpu.todo[0].Acq? {
        forall d | 0 <= d < |cpus| ensures cpu.todo[0].lock !in cpus[d].held {
          assert !WaitsFor(cpus, e.cpu, d);
        }
      }
      assert forall l :: l in cpus'[e.cpu].held ==> l in cpu.held || cpu.todo[0] == Acq(l);
    }
  }

  lemma {:induction false} AlwaysSound(ss: seq<seq<Cpu>>, es: seq<Event>, k: nat)
    requires IsRun(ss, es) && k < |ss|
    ensures Sound(ss[k])
  {
    if k > 0 {
      AlwaysSound(ss, es, k - 1);
      NextSound(ss[k - 1], es[k - 1]);
    }
  }

  /** A chain of CPUs each waiting for a lock of the next. */
  ghost predicate Chain(cpus: seq<Cpu>, path: seq<nat>) {
    forall i :: 0 <= i < |path| - 1 ==> WaitsFor(cpus, path[i], path[i + 1])
  }

  /** Who waits for a CPU that itself waits, wants a lock of lower rank. */
  lemma WaitingRises(cpus: seq<Cpu>, c: nat, d: nat, e: nat)
    requires Sound(cpus) && WaitsFor(cpus, c, d) && WaitsFor(cpus, d, e)
    ensures Rank(cpus[c].todo[0].lock) < Rank(cpus[d].todo[0].lock)
  {
    var l := cpus[c].todo[0].lock;
    var i :| 0 <= i < |cpus[d].held| && cpus[d].held[i] == l;
    assert Ordered(cpus[d].todo, cpus[d].held);
    assert Above(cpus[d].todo[0].lock, cpus[d].held);
  }

  lemma {:induction false} ChainRises(cpus: seq<Cpu>, path: seq<nat>, i: nat)
    requires Sound(cpus) && Chain(cpus, path) && i + 1 < |path| - 1
    ensures WaitsFor(cpus, path[0], path[1]) && WaitsFor(cpus, path[i + 1], path[i + 2])
    ensures Rank(cpus[path[0]].todo[0].lock) < Rank(cpus[path[i + 1]].todo[0].lock)
  {
    assert WaitsFor(cpus, path[i], path[i + 1]) && WaitsFor(cpus, path[i + 1], path[i + 2]);
    WaitingRises(cpus, path[i], path[i + 1], path[i + 2]);
    if i > 0 {
      ChainRises(cpus, path, i - 1);
    }
  }

  /** No reachable state has a cycle of CPUs waiting for one another, nor a CPU waiting for itself. */
  lemma NoCyclicWait(ss: seq<seq<Cpu>>, es: seq<Event>, k: nat, path: seq<nat>)
    requires IsRun(ss, es) && k < |ss|
    requires |path| > 1 && path[0] == path[|path| - 1]
    ensures !Chain(ss[k], path)
  {
    AlwaysSound(ss, es, k);
    var cpus := ss[k];
    if Chain(cpus, path) {
      var longer := path + [path[1]];
      var n := |path| - 1;
      forall i | 0 <= i < |longer| - 1 ensures WaitsFor(cpus, longer[i], longer[i + 1]) {
        if i < n {
          assert WaitsFor(cpus, path[i], path[i + 1]);
        } else {
          assert WaitsFor(cpus, path[0], path[1]);
        }
      }
      ChainRises(cpus, longer, n - 1);
      assert false;
    }
  }

  /** Deadlock freedom: as long as some CPU has something left to do, some CPU can take its next step. */
  lemma SomeoneCanStep(ss: seq<seq<Cpu>>, es: seq<Event>, k: nat, c: nat)
    requires IsRun(ss, es) && k < |ss| && c < |ss[k]| && ss[k][c].todo != []
    ensures exists d: nat :: CanStep(ss[k], d)
  {
    AlwaysSound(ss, es, k);
    FindStepper(ss[k], c);
  }

  lemma {:induction false} FindStepper(cpus: seq<Cpu>, c: nat)
    requires Sound(cpus) && c < |cpus| && cpus[c].todo != []
    ensures exists d: nat :: CanStep(cpus, d)
    decreases 6 - if cpus[c].todo[0].Acq? then Rank(cpus[c].todo[0].lock) else 6
  {
    if !CanStep(cpus, c) {
      var d: nat :| WaitsFor(cpus, c, d);
      assert Ordered(cpus[d].todo, cpus[d].held);
      assert cpus[d].todo != [];
      if !CanStep(cpus, d) {
        var e: nat :| WaitsFor(cpus, d, e);
        WaitingRises(cpus, c, d, e);
        FindStepper(cpus, d);
      }
    }
  }

  // ---------------------------------------------------------------------------------------------
  // What the locks are for

  /** The CPU is about to make this use of memory. */
  predicate IsAt(cpus: seq<Cpu>, c: nat, a: Access) {
    c < |cpus| && cpus[c].todo != [] && cpus[c].todo[0] == Do(a)
  }

  /** In no reachable state are two CPUs at uses that have a lock in common; and each holds just the locks it needs. */
  lemma NoRace(ss: seq<seq<Cpu>>, es: seq<Event>, k: nat, c: nat, d: nat, a: Access, b: Access)
    requires IsRun(ss, es) && k < |ss| && c != d && IsAt(ss[k], c, a) && IsAt(ss[k], d, b)
    ensures ss[k][c].held == Needed(a) && ss[k][d].held == Needed(b)
    ensures forall l :: l in Needed(a) ==> l !in Needed(b)
  {
    AlwaysSound(ss, es, k);
    assert Ordered(ss[k][c].todo, ss[k][c].held) && Ordered(ss[k][d].todo, ss[k][d].held);
  }

  /** The operation that a CPU started last. */
  function OperationOf(es: seq<Event>, k: nat, c: nat): Option<Operation>
    requires k <= |es|
    decreases k
  {
    if k == 0 then None
    else if es[k - 1].Start? && es[k - 1].cpu == c then Some(es[k - 1].op)
    else OperationOf(es, k - 1, c)
  }

  /** The use of memory that is a CPU's next action. */
  function UseAt(cpu: Cpu): seq<Access> {
    if cpu.todo != [] && cpu.todo[0].Do? then [cpu.todo[0].access] else []
  }

  /** The uses of memory that the CPU has made since. */
  function UsesMade(ss: seq<seq<Cpu>>, es: seq<Event>, k: nat, c: nat): seq<Access>
    requires k <= |es| < |ss|
    decreases k
  {
    if k == 0 || (es[k - 1].Start? && es[k - 1].cpu == c) then []
    else UsesMade(ss, es, k - 1, c) + if es[k - 1] == Move(c) && c < |ss[k - 1]| then UseAt(ss[k - 1][c]) else []
  }

  /** What the CPU has done and what it has left to do make up its operation. */
  ghost predicate Underway(ss: seq<seq<Cpu>>, es: seq<Event>, k: nat, c: nat)
    requires k <= |es| < |ss| && c < |ss[k]|
  {
    match OperationOf(es, k, c)
    case Some(op) => UsesMade(ss, es, k, c) + Uses(ss[k][c].todo) == Accesses(op)
    case None => ss[k][c] == Cpu([], [])
  }

  lemma UseStep(made: seq<Access>, cpu: Cpu)
    requires cpu.todo != []
    ensures made + Uses(cpu.todo) == (made + UseAt(cpu)) + Uses(Stepped(cpu).todo)
  {
  }

  lemma UnderwayStep(ss: seq<seq<Cpu>>, es: seq<Event>, m: nat, k: nat, c: nat)
    requires IsRun(ss, es) && m < |es| && k == m + 1 && c < |ss[m]| == |ss[k]| && Underway(ss, es, m, c)
    ensures Underway(ss, es, k, c)
  {
    assert Enabled(ss[m], es[m]) && ss[k] == Next(ss[m], es[m]);
    if es[m] == Move(c) {
      MoveUnderway(ss, es, m, k, c);
    } else if es[m].Start? && es[m].cpu == c {
      StartUnderway(ss, es, m, k, c);
    } else {
      OtherUnderway(ss, es, m, k, c);
    }
  }

  lemma StartUnderway(ss: seq<seq<Cpu>>, es: seq<Event>, m: nat, k: nat, c: nat)
    requires |ss| == |es| + 1 && m < |es| && k == m + 1 && c < |ss[k]|
    requires es[m].Start? && es[m].cpu == c && ss[k][c].todo == Program(es[m].op)
    ensures Underway(ss, es, k, c)
  {
    ProgramOrdered(es[m].op);
    assert UsesMade(ss, es, k, c) == [];
  }

  lemma MoveUnderway(ss: seq<seq<Cpu>>, es: seq<Event>, m: nat, k: nat, c: nat)
    requires |ss| == |es| + 1 && m < |es| && k == m + 1 && c < |ss[m]| == |ss[k]| && Underway(ss, es, m, c)
    requires es[m] == Move(c) && ss[m][c].todo != [] && ss[k][c] == Stepped(ss[m][c])
    ensures Underway(ss, es, k, c)
  {
    UseStep(UsesMade(ss, es, m, c), ss[m][c]);
    assert OperationOf(es, k, c) == OperationOf(es, m, c);
  }

  lemma OtherUnderway(ss: seq<seq<Cpu>>, es: seq<Event>, m: nat, k: nat, c: nat)
    requires |ss| == |es| + 1 && m < |es| && k == m + 1 && c < |ss[m]| == |ss[k]| && Underway(ss, es, m, c)
    requires es[m].cpu != c && ss[k][c] == ss[m][c]
    ensures Underway(ss, es, k, c)
  {
    assert OperationOf(es, k, c) == OperationOf(es, m, c);
    assert UsesMade(ss, es, m, c) + [] == UsesMade(ss, es, m, c);
  }

  /** In every run a CPU makes the uses of its operation one after the other, all of them by the time it is done. */
  lemma {:induction false} OperationRuns(ss: seq<seq<Cpu>>, es: seq<Event>, k: nat, c: nat)
    requires IsRun(ss, es) && k <= |es| && c < |ss[k]|
    ensures Underway(ss, es, k, c)
    ensures ss[k][c].todo == [] && OperationOf(es, k, c).Some? ==>
              UsesMade(ss, es, k, c) == Accesses(OperationOf(es, k, c).value)
  {
    if k > 0 {
      var m := k - 1;
      assert Enabled(ss[m], es[m]) && ss[k] == Next(ss[m], es[m]);
      OperationRuns(ss, es, m, c);
      UnderwayStep(ss, es, m, k, c);
    }
  }
}
