/**
 The list of pipes under concurrent creation and lookup, step by step: a creator takes its id in one critical
 section and walks to the end of the list to link its pipe in another; a lookup walks the list in a third.
 */
module Registry {
  import opened Types

  const ID_VALUES: nat := 0x1_0000_0000_0000_0000

  const FIRST_ID: nat := 1000

  /** `serial` is history: how many ids had been given out before. Two pipes are the same if their serials are. */
  datatype Pipe = Pipe(serial: nat, id: nat, name: string)

  datatype Query = ById(id: nat) | ByName(name: string)

  datatype Job = Create(name: string) | Find(query: Query)

  /** Where a thread is; the states with `at` hold the list's lock, `at` counting the nodes walked over. */
  datatype Pc =
    | Idle
    | WantsId(name: string)
    | TakesId(name: string)
    | WantsToList(pipe: Pipe)
    | Walks(pipe: Pipe, at: nat)
    | Links(pipe: Pipe, at: nat)        // the end of the list was seen, the link not yet written
    | WantsToFind(query: Query)
    | Looks(query: Query, at: nat)
    | Found(query: Query, result: Option<Pipe>)

  /** `nextId` is the 64-bit counter, `made` its history. */
  datatype State = State(list: seq<Pipe>, nextId: nat, made: nat, lock: Option<Tid>, pc: map<Tid, Pc>)

  datatype Event = Begin(tid: Tid, job: Job) | Acquire(tid: Tid) | Step(tid: Tid)

  predicate Waits(p: Pc) {
    p.WantsId? || p.WantsToList? || p.WantsToFind?
  }

  predicate Inside(p: Pc) {
    p.TakesId? || p.Walks? || p.Links? || p.Looks?
  }

  predicate Matches(p: Pipe, q: Query) {
    match q
    case ById(id) => p.id == id
    case ByName(name) => p.name == name
  }

  ghost predicate Enabled(s: State, e: Event) {
    e.tid in s.pc &&
    match e
    case Begin(t, _) => s.pc[t].Idle? || s.pc[t].Found?
    case Acquire(t) => Waits(s.pc[t]) && s.lock.None?
    case Step(t) => Inside(s.pc[t])
  }

  /** The step of a thread inside: take the id, walk on, link, or answer; leaving gives the lock back. */
  function Stepped(s: State, t: Tid): State
    requires t in s.pc && Inside(s.pc[t])
  {
    match s.pc[t]
    case TakesId(name) =>
      s.(nextId := (s.nextId + 1) % ID_VALUES, made := s.made + 1, lock := None,
         pc := s.pc[t := WantsToList(Pipe(s.made, s.nextId, name))])
    case Walks(pipe, at) =>
      s.(pc := s.pc[t := if at < |s.list| then Walks(pipe, at + 1) else Links(pipe, at)])
    case Links(pipe, at) =>
      s.(list := s.list[..if at <= |s.list| then at else |s.list|] + [pipe], lock := None, pc := s.pc[t := Idle])
    case Looks(q, at) =>
      if at >= |s.list| then s.(lock := None, pc := s.pc[t := Found(q, None)])
      else if Matches(s.list[at], q) then s.(lock := None, pc := s.pc[t := Found(q, Some(s.list[at]))])
      else s.(pc := s.pc[t := Looks(q, at + 1)])
    case _ => s
  }

  function Next(s: State, e: Event): State
    requires Enabled(s, e)
  {
    match e
    case Begin(t, job) =>
      s.(pc := s.pc[t := if job.Create? then WantsId(job.name) else WantsToFind(job.query)])
    case Acquire(t) =>
      s.(lock := Some(t),
         pc := s.pc[t := match s.pc[t]
                         case WantsId(name) => TakesId(name)
                         case WantsToList(pipe) => Walks(pipe, 0)
                         case WantsToFind(q) => Looks(q, 0)
                         case other => other])
    case Step(t) => Stepped(s, t)
  }

  ghost predicate Initial(s: State) {
    s.list == [] && s.nextId == FIRST_ID && s.made == 0 && s.lock.None? && forall t :: t in s.pc ==> s.pc[t].Idle?
  }

  ghost predicate IsRun(ss: seq<State>, es: seq<Event>) {
    && |ss| == |es| + 1 && Initial(ss[0])
    && forall i :: 0 <= i < |es| ==> Enabled(ss[i], es[i]) && ss[i + 1] == Next(ss[i], es[i])
  }

  // ---------------------------------------------------------------------------------------------

  /** The first pipe in the list that matches. */
  function First(list: seq<Pipe>, q: Query): Option<Pipe> {
    if list == [] then None else if Matches(list[0], q) then Some(list[0]) else First(list[1..], q)
  }

  /** A pipe that has its id but is not listed yet. */
  predicate Holding(p: Pc) {
    p.WantsToList? || p.Walks? || p.Links?
  }

  /** An id tells how many pipes were made before, up to the counter's wrap. */
  ghost predicate Numbered(p: Pipe, made: nat) {
    p.serial < made && p.id == (FIRST_ID + p.serial) % ID_VALUES
  }

  /** No two of the pipes, listed or still in their creators' hands, have the same serial. */
  ghost predicate Serials(s: State) {
    && s.nextId == (FIRST_ID + s.made) % ID_VALUES
    && (forall i :: 0 <= i < |s.list| ==> Numbered(s.list[i], s.made))
    && (forall t :: t in s.pc && Holding(s.pc[t]) ==> Numbered(s.pc[t].pipe, s.made))
    && (forall i, j :: 0 <= i < j < |s.list| ==> s.list[i].serial != s.list[j].serial)
    && (forall t, i :: t in s.pc && Holding(s.pc[t]) && 0 <= i < |s.list| ==> s.pc[t].pipe.serial != s.list[i].serial)
    && (forall t, u :: t in s.pc && u in s.pc && t != u && Holding(s.pc[t]) && Holding(s.pc[u]) ==>
                         s.pc[t].pipe.serial != s.pc[u].pipe.serial)
  }

  /** No pipe made so far is lost. */
  ghost predicate NoneLost(s: State) {
    forall n :: 0 <= n < s.made ==> IsListed(s, n) || IsHeld(s, n)
  }

  ghost predicate IsListed(s: State, serial: nat) {
    exists i :: 0 <= i < |s.list| && s.list[i].serial == serial
  }

  ghost predicate IsHeld(s: State, serial: nat) {
    exists t :: Makes(s, t, serial)
  }

  predicate Makes(s: State, t: Tid, serial: nat) {
    t in s.pc && Holding(s.pc[t]) && s.pc[t].pipe.serial == serial
  }

  ghost predicate WalkOk(s: State, p: Pc) {
    match p
    case Walks(_, at) => at <= |s.list|
    case Links(_, at) => at == |s.list|
    case Looks(q, at) => at <= |s.list| && First(s.list[..at], q).None?
    case Found(q, Some(pipe)) => First(s.list, q) == Some(pipe)
    case _ => true
  }

  ghost predicate Sound(s: State) {
    && (forall t :: t in s.pc ==> (Inside(s.pc[t]) <==> s.lock == Some(t)))
    && Serials(s) && NoneLost(s)
    && (forall t :: t in s.pc ==> WalkOk(s, s.pc[t]))
  }

  lemma {:induction false} FirstConcat(a: seq<Pipe>, b: seq<Pipe>, q: Query)
    ensures First(a + b, q) == if First(a, q).Some? then First(a, q) else First(b, q)
  {
    if a == [] {
      assert a + b == b;
    } else {
      assert (a + b)[1..] == a[1..] + b;
      FirstConcat(a[1..], b, q);
    }
  }

  /** One more look settles whether the part walked over matches. */
  lemma FirstStep(list: seq<Pipe>, at: nat, q: Query)
    requires at < |list| && First(list[..at], q).None?
    ensures First(list[..at + 1], q) == if Matches(list[at], q) then Some(list[at]) else None
    ensures Matches(list[at], q) ==> First(list, q) == Some(list[at])
  {
    assert list[..at + 1] == list[..at] + [list[at]];
    FirstConcat(list[..at], [list[at]], q);
    assert list == list[..at + 1] + list[at + 1..];
    FirstConcat(list[..at + 1], list[at + 1..], q);
  }

  lemma CounterStep(made: nat)
    ensures ((FIRST_ID + made) % ID_VALUES + 1) % ID_VALUES == (FIRST_ID + (made + 1)) % ID_VALUES
  {
  }

  lemma SerialsKept(s: State, e: Event)
    requires Sound(s) && Enabled(s, e)
    ensures Serials(Next(s, e))
  {
    if e.Step? && s.pc[e.tid].Links? {
      LinkKept(s, e.tid);
    } else if e.Step? && s.pc[e.tid].TakesId? {
      TakeKept(s, e.tid);
    }
  }

  lemma TakeKept(s: State, t: Tid)
    requires Sound(s) && Enabled(s, Step(t)) && s.pc[t].TakesId?
    ensures Serials(Next(s, Step(t)))
  {
    CounterStep(s.made);
  }

  lemma LinkKept(s: State, t: Tid)
    requires Sound(s) && Enabled(s, Step(t)) && s.pc[t].Links?
    ensures Serials(Next(s, Step(t)))
  {
    assert Next(s, Step(t)).list == s.list + [s.pc[t].pipe] by {
      assert WalkOk(s, s.pc[t]);
    }
  }

  lemma NoneLostKept(s: State, e: Event)
    requires Sound(s) && Enabled(s, e)
    ensures NoneLost(Next(s, e))
  {
    var s' := Next(s, e);
    forall n | 0 <= n < s'.made ensures IsListed(s', n) || IsHeld(s', n) {
      if n == s.made {
        assert Makes(s', e.tid, n);
      } else if IsListed(s, n) {
        ListedStays(s, e, n);
      } else {
        HeldStays(s, e, n);
      }
    }
  }

  lemma ListedStays(s: State, e: Event, n: nat)
    requires Sound(s) && Enabled(s, e) && IsListed(s, n)
    ensures IsListed(Next(s, e), n)
  {
    var i :| 0 <= i < |s.list| && s.list[i].serial == n;
    assert WalkOk(s, s.pc[e.tid]);
    assert Next(s, e).list[i].serial == n;
  }

  /** Its creator goes on holding the pipe, or links it. */
  lemma HeldStays(s: State, e: Event, n: nat)
    requires Sound(s) && Enabled(s, e) && IsHeld(s, n)
    ensures IsListed(Next(s, e), n) || IsHeld(Next(s, e), n)
  {
    var s' := Next(s, e);
    var t :| Makes(s, t, n);
    if e == Step(t) && s.pc[t].Links? {
      assert WalkOk(s, s.pc[t]);
      assert s'.list[|s.list|].serial == n;
    } else {
      assert Makes(s', t, n);
    }
  }

  lemma WalksKept(s: State, e: Event)
    requires Sound(s) && Enabled(s, e)
    ensures var s' := Next(s, e); forall t :: t in s'.pc ==> WalkOk(s', s'.pc[t])
  {
    var s' := Next(s, e);
    forall t | t in s'.pc
      ensures WalkOk(s', s'.pc[t])
    {
      assert WalkOk(s, s.pc[t]) && WalkOk(s, s.pc[e.tid]);
      if e.Step? && s.pc[e.tid].Links? && t != e.tid {
        assert s'.list == s.list + [s.pc[e.tid].pipe];
        if s.pc[t].Found? {
          FirstConcat(s.list, [s.pc[e.tid].pipe], s.pc[t].query);
        }
      }
      if e == Step(t) && s.pc[t].Looks? && s.pc[t].at < |s.list| {
        FirstStep(s.list, s.pc[t].at, s.pc[t].query);
      }
    }
  }

  lemma NextSound(s: State, e: Event)
    requires Sound(s) && Enabled(s, e)
    ensures Sound(Next(s, e))
  {
    SerialsKept(s, e);
    NoneLostKept(s, e);
    WalksKept(s, e);
  }

  lemma {:induction false} AlwaysSound(ss: seq<State>, es: seq<Event>, i: nat)
    requires IsRun(ss, es) && i <= |es|
    ensures Sound(ss[i])
  {
    if i > 0 {
      AlwaysSound(ss, es, i - 1);
      NextSound(ss[i - 1], es[i - 1]);
    }
  }

  // ---------------------------------------------------------------------------------------------
  // Ids

  /** Ids repeat after exactly as many pipes as the counter has values. */
  lemma IdsClash(a: nat, b: nat)
    requires a <= b
    ensures (FIRST_ID + a) % ID_VALUES == (FIRST_ID + b) % ID_VALUES <==> (b - a) % ID_VALUES == 0
  {
  }

  /** As long as the counter has not wrapped, the listed pipes have different ids and each is found by its id. */
  lemma ListedIsFoundById(ss: seq<State>, es: seq<Event>, i: nat, k: nat)
    requires IsRun(ss, es) && i <= |es| && k < |ss[i].list| && ss[i].made <= ID_VALUES
    ensures forall j :: 0 <= j < |ss[i].list| && j != k ==> ss[i].list[j].id != ss[i].list[k].id
    ensures First(ss[i].list, ById(ss[i].list[k].id)) == Some(ss[i].list[k])
  {
    AlwaysSound(ss, es, i);
    var list := ss[i].list;
    forall j | 0 <= j < |list| && j != k
      ensures list[j].id != list[k].id
    {
      var a, b := list[j].serial, list[k].serial;
      assert a != b;
      IdsClash(if a < b then a else b, if a < b then b else a);
    }
    OnlyMatch(list, k, ById(list[k].id));
  }

  lemma {:induction false} OnlyMatch(list: seq<Pipe>, k: nat, q: Query)
    requires k < |list| && Matches(list[k], q) && forall j :: 0 <= j < k ==> !Matches(list[j], q)
    ensures First(list, q) == Some(list[k])
  {
    if k > 0 {
      OnlyMatch(list[1..], k - 1, q);
    }
  }

  // ---------------------------------------------------------------------------------------------
  // Stability

  /** The list only grows at its end. */
  lemma {:induction false} ListGrows(ss: seq<State>, es: seq<Event>, i: nat, j: nat)
    requires IsRun(ss, es) && i <= j <= |es|
    ensures ss[i].list <= ss[j].list
  {
    if i < j {
      ListGrows(ss, es, i, j - 1);
      AlwaysSound(ss, es, j - 1);
      var s, e := ss[j - 1], es[j - 1];
      assert WalkOk(s, s.pc[e.tid]);
      assert s.list <= Next(s, e).list;
    }
  }

  /** What the list answers once, it answers ever after. */
  lemma FirstIsStable(ss: seq<State>, es: seq<Event>, i: nat, j: nat, q: Query)
    requires IsRun(ss, es) && i <= j <= |es| && First(ss[i].list, q).Some?
    ensures First(ss[j].list, q) == First(ss[i].list, q)
  {
    ListGrows(ss, es, i, j);
    var more := ss[j].list[|ss[i].list|..];
    assert ss[j].list == ss[i].list + more;
    FirstConcat(ss[i].list, more, q);
  }

  /**
   Once a lookup by id or by name has returned a pipe, every lookup for the same that ends later, by any thread,
   returns that pipe.
   */
  lemma LookupIsStable(ss: seq<State>, es: seq<Event>, i: nat, t: Tid, q: Query, pipe: Pipe, j: nat, u: Tid)
    requires IsRun(ss, es) && i <= j < |es|
    requires t in ss[i].pc && ss[i].pc[t] == Found(q, Some(pipe))
    requires es[j] == Step(u) && ss[j].pc[u].Looks? && ss[j].pc[u].query == q && ss[j + 1].pc[u].Found?
    ensures ss[j + 1].pc[u] == Found(q, Some(pipe))
  {
    AlwaysSound(ss, es, i);
    assert WalkOk(ss[i], ss[i].pc[t]);
    FirstIsStable(ss, es, i, j, q);
    AlwaysSound(ss, es, j);
    var s := ss[j];
    var at := s.pc[u].at;
    assert WalkOk(s, s.pc[u]);
    assert s.list[..|s.list|] == s.list;
    if at < |s.list| {
      FirstStep(s.list, at, q);
    }
  }

  /** A pipe that is listed once can be found by its id ever after, as long as the counter does not wrap. */
  lemma ListedForever(ss: seq<State>, es: seq<Event>, i: nat, j: nat, k: nat)
    requires IsRun(ss, es) && i <= j <= |es| && k < |ss[i].list| && ss[j].made <= ID_VALUES
    ensures First(ss[j].list, ById(ss[i].list[k].id)) == Some(ss[i].list[k])
  {
    ListGrows(ss, es, i, j);
    assert ss[j].list[k] == ss[i].list[k];
    ListedIsFoundById(ss, es, j, k);
  }

  // ---------------------------------------------------------------------------------------------
  // What the calls come to, told from the events

  /** The job of the latest call of `t` in the first `k` events. */
  function JobOf(es: seq<Event>, k: nat, t: Tid): Option<Job>
    requires k <= |es|
    decreases k
  {
    if k == 0 then None
    else if es[k - 1].Begin? && es[k - 1].tid == t then Some(es[k - 1].job)
    else JobOf(es, k - 1, t)
  }

  /** How many steps `t` has made in that call. */
  function StepsOf(es: seq<Event>, k: nat, t: Tid): nat
    requires k <= |es|
    decreases k
  {
    if k == 0 || (es[k - 1].Begin? && es[k - 1].tid == t) then 0
    else StepsOf(es, k - 1, t) + if es[k - 1] == Step(t) then 1 else 0
  }

  /** Event `k` takes an id: it is the first step of a call that creates a pipe. */
  predicate Takes(es: seq<Event>, k: nat)
    requires k < |es|
  {
    es[k].Step? && StepsOf(es, k, es[k].tid) == 0
    && match JobOf(es, k, es[k].tid)
       case Some(Create(_)) => true
       case _ => false
  }

  /** How many ids the first `k` events take. */
  function IdsTaken(es: seq<Event>, k: nat): nat
    requires k <= |es|
    decreases k
  {
    if k == 0 then 0 else IdsTaken(es, k - 1) + if Takes(es, k - 1) then 1 else 0
  }

  /** How many ids had been taken before the one that `t` took last. */
  function SerialOf(es: seq<Event>, k: nat, t: Tid): nat
    requires k <= |es|
    decreases k
  {
    if k == 0 then 0
    else if es[k - 1].tid == t && Takes(es, k - 1) then IdsTaken(es, k - 1)
    else SerialOf(es, k - 1, t)
  }

  /** The pipe that the creation `t` is in makes: the ids count up from 1000, and wrap at 64 bits. */
  function PipeOf(es: seq<Event>, k: nat, t: Tid, name: string): Pipe
    requires k <= |es|
  {
    var n := SerialOf(es, k, t);
    Pipe(n, (FIRST_ID + n) % ID_VALUES, name)
  }

  /** The pipes of the creations that are over after `k` events, in the order in which they ended. */
  ghost function Created(ss: seq<State>, es: seq<Event>, k: nat): seq<Pipe>
    requires k <= |es| < |ss|
    decreases k
  {
    if k == 0 then [] else
      Created(ss, es, k - 1) + if Ends(ss, es, k - 1) then Made(es, k - 1) else []
  }

  /** With event `k` its thread is back from a call that it had not come back from before. */
  ghost predicate Ends(ss: seq<State>, es: seq<Event>, k: nat)
    requires k < |es| < |ss|
  {
    var t := es[k].tid;
    t in ss[k].pc && t in ss[k + 1].pc && !ss[k].pc[t].Idle? && ss[k + 1].pc[t].Idle?
  }

  function Made(es: seq<Event>, k: nat): seq<Pipe>
    requires k < |es|
  {
    match JobOf(es, k, es[k].tid)
    case Some(Create(name)) => [PipeOf(es, k, es[k].tid, name)]
    case _ => []
  }

  /** A thread is where its call puts it, with the pipe that its call makes; back from the call it has listed it. */
  ghost predicate AtWork(p: Pc, list: seq<Pipe>, es: seq<Event>, k: nat, t: Tid)
    requires k <= |es|
  {
    match p
    case Idle =>
      (match JobOf(es, k, t)
       case Some(Create(name)) => StepsOf(es, k, t) > 0 && PipeOf(es, k, t, name) in list
       case Some(Find(_)) => false
       case None => true)
    case WantsId(name) => JobOf(es, k, t) == Some(Create(name)) && StepsOf(es, k, t) == 0
    case TakesId(name) => JobOf(es, k, t) == Some(Create(name)) && StepsOf(es, k, t) == 0
    case WantsToFind(q) => JobOf(es, k, t) == Some(Find(q))
    case Looks(q, _) => JobOf(es, k, t) == Some(Find(q))
    case Found(q, _) => JobOf(es, k, t) == Some(Find(q))
    case _ => // the pipe is made but not listed
      JobOf(es, k, t) == Some(Create(p.pipe.name)) && StepsOf(es, k, t) > 0 && p.pipe == PipeOf(es, k, t, p.pipe.name)
  }

  ghost predicate AllAtWork(s: State, es: seq<Event>, k: nat)
    requires k <= |es|
  {
    s.made == IdsTaken(es, k) && forall t :: t in s.pc ==> AtWork(s.pc[t], s.list, es, k, t)
  }

  /** The events of others change nothing about a thread's call. */
  lemma OthersKeep(es: seq<Event>, k: nat, t: Tid)
    requires k < |es| && es[k].tid != t
    ensures JobOf(es, k + 1, t) == JobOf(es, k, t) && StepsOf(es, k + 1, t) == StepsOf(es, k, t)
    ensures SerialOf(es, k + 1, t) == SerialOf(es, k, t)
  {
  }

  lemma OthersStep(s: State, es: seq<Event>, k: nat, t: Tid)
    requires k < |es| && Sound(s) && Enabled(s, es[k]) && AllAtWork(s, es, k)
    requires t in s.pc && t != es[k].tid
    ensures AtWork(s.pc[t], Next(s, es[k]).list, es, k + 1, t)
  {
    OthersKeep(es, k, t);
    assert AtWork(s.pc[t], s.list, es, k, t);
    assert WalkOk(s, s.pc[es[k].tid]);
  }

  lemma OwnStep(s: State, es: seq<Event>, k: nat, t: Tid)
    requires k < |es| && Sound(s) && Enabled(s, es[k]) && AllAtWork(s, es, k) && t == es[k].tid
    ensures AtWork(Next(s, es[k]).pc[t], Next(s, es[k]).list, es, k + 1, t)
    ensures Next(s, es[k]).made == IdsTaken(es, k + 1)
  {
    assert AtWork(s.pc[t], s.list, es, k, t);
  }

  lemma WorkStep(s: State, es: seq<Event>, k: nat)
    requires k < |es| && Sound(s) && Enabled(s, es[k]) && AllAtWork(s, es, k)
    ensures AllAtWork(Next(s, es[k]), es, k + 1)
  {
    OwnStep(s, es, k, es[k].tid);
    forall t | t in s.pc && t != es[k].tid ensures AtWork(s.pc[t], Next(s, es[k]).list, es, k + 1, t) {
      OthersStep(s, es, k, t);
    }
  }

  lemma {:induction false} AlwaysAtWork(ss: seq<State>, es: seq<Event>, k: nat)
    requires IsRun(ss, es) && k <= |es|
    ensures AllAtWork(ss[k], es, k)
  {
    if k > 0 {
      AlwaysAtWork(ss, es, k - 1);
      AlwaysSound(ss, es, k - 1);
      WorkStep(ss[k - 1], es, k - 1);
    }
  }

  /** The list grows by the pipe of a creation that ends, and stays as it is otherwise. */
  lemma ListStep(s: State, es: seq<Event>, k: nat)
    requires k < |es| && Sound(s) && Enabled(s, es[k]) && AllAtWork(s, es, k)
    ensures var t, s' := es[k].tid, Next(s, es[k]);
            s'.list == s.list + if !s.pc[t].Idle? && s'.pc[t].Idle? then Made(es, k) else []
  {
    var t := es[k].tid;
    assert WalkOk(s, s.pc[t]) && AtWork(s.pc[t], s.list, es, k, t);
  }

  /**
   In every run the list is exactly the pipes of the creations that are over, in the order in which they ended, each
   with the name that its call gave and the id that its call took.
   */
  lemma {:induction false} ListIsCreated(ss: seq<State>, es: seq<Event>, k: nat)
    requires IsRun(ss, es) && k <= |es|
    ensures ss[k].list == Created(ss, es, k)
  {
    if k > 0 {
      ListIsCreated(ss, es, k - 1);
      AlwaysAtWork(ss, es, k - 1);
      AlwaysSound(ss, es, k - 1);
      assert Enabled(ss[k - 1], es[k - 1]) && ss[k] == Next(ss[k - 1], es[k - 1]);
      ListStep(ss[k - 1], es, k - 1);
    }
  }

  /** No call of `t` begins between its `Begin` at `i` and `k`. */
  ghost predicate Within(es: seq<Event>, i: nat, k: nat, t: Tid) {
    i < k <= |es| && forall m :: i < m < k && es[m].Begin? ==> es[m].tid != t
  }

  lemma {:induction false} StillInJob(es: seq<Event>, i: nat, k: nat, t: Tid, job: Job)
    requires Within(es, i, k, t) && es[i] == Begin(t, job)
    ensures JobOf(es, k, t) == Some(job)
    decreases k
  {
    if k > i + 1 {
      StillInJob(es, i, k - 1, t, job);
    }
  }

  /** Between events `i` and `k`, `t` took the id that `n` others were taken before. */
  ghost predicate TookId(es: seq<Event>, i: nat, k: nat, t: Tid, n: nat)
    requires k <= |es|
  {
    exists m: nat :: i < m < k && es[m] == Step(t) && Takes(es, m) && n == IdsTaken(es, m)
  }

  lemma {:induction false} PipeIsOwn(es: seq<Event>, i: nat, k: nat, t: Tid, name: string)
    requires Within(es, i, k, t) && es[i] == Begin(t, Create(name))
    ensures StepsOf(es, k, t) > 0 ==> TookId(es, i, k, t, SerialOf(es, k, t))
    decreases k
  {
    if k > i + 1 {
      PipeIsOwn(es, i, k - 1, t, name);
      StillInJob(es, i, k - 1, t, Create(name));
      assert TookId(es, i, k - 1, t, SerialOf(es, k - 1, t)) ==> TookId(es, i, k, t, SerialOf(es, k - 1, t));
      if es[k - 1] == Step(t) && Takes(es, k - 1) {
        assert TookId(es, i, k, t, IdsTaken(es, k - 1));
      }
    }
  }

  /**
   When a thread is back from a creation, the list has the pipe with the name that it asked for and the id that was
   next when it took its own, and it keeps it ever after.
   */
  lemma CreatedIsListed(ss: seq<State>, es: seq<Event>, i: nat, j: nat, k: nat, t: Tid, name: string)
    requires IsRun(ss, es) && Within(es, i, j, t) && es[i] == Begin(t, Create(name))
    requires j <= k <= |es| && t in ss[j].pc && ss[j].pc[t].Idle?
    ensures exists n: nat :: TookId(es, i, j, t, n) && Pipe(n, (FIRST_ID + n) % ID_VALUES, name) in ss[k].list
  {
    StillInJob(es, i, j, t, Create(name));
    PipeIsOwn(es, i, j, t, name);
    AlwaysAtWork(ss, es, j);
    assert AtWork(ss[j].pc[t], ss[j].list, es, j, t);
    ListGrows(ss, es, j, k);
    StaysIn(ss[j].list, ss[k].list, PipeOf(es, j, t, name));
  }

  lemma StaysIn(a: seq<Pipe>, b: seq<Pipe>, p: Pipe)
    requires a <= b && p in a
    ensures p in b
  {
    var i :| 0 <= i < |a| && a[i] == p;
    assert b[i] == p;
  }

  /**
   Every id taken so far is that of exactly one pipe, either listed or in the hands of the one thread that is making it.
   */
  lemma EveryPipeIsSomewhere(ss: seq<State>, es: seq<Event>, k: nat, n: nat)
    requires IsRun(ss, es) && k <= |es| && n < IdsTaken(es, k)
    ensures IsListed(ss[k], n) <==> !IsHeld(ss[k], n)
    ensures forall i, j :: 0 <= i < j < |ss[k].list| ==> ss[k].list[i].serial != ss[k].list[j].serial
    ensures forall t, u :: Makes(ss[k], t, n) && Makes(ss[k], u, n) ==> t == u
  {
    AlwaysSound(ss, es, k);
    AlwaysAtWork(ss, es, k);
  }

  /** A lookup answers for the list as it is at the lookup's last step, also when it finds nothing. */
  lemma {:induction false} LookupResult(ss: seq<State>, es: seq<Event>, i: nat, k: nat, t: Tid, q: Query)
    requires IsRun(ss, es) && Within(es, i, k, t) && es[i] == Begin(t, Find(q))
    requires t in ss[k].pc && (ss[k].pc[t].Found? || ss[k].pc[t].Idle?)
    ensures exists m: nat :: i < m < k && es[m] == Step(t) && ss[k].pc[t] == Found(q, First(ss[m].list, q))
    decreases k
  {
    var m := k - 1;
    var s := ss[m];
    assert Enabled(s, es[m]) && ss[k] == Next(s, es[m]);
    if m > i && t in s.pc && (s.pc[t].Found? || s.pc[t].Idle?) {
      LookupResult(ss, es, i, m, t, q);
    } else {
      AlwaysAtWork(ss, es, m);
      AlwaysSound(ss, es, m);
      assert AtWork(s.pc[t], s.list, es, m, t) && WalkOk(s, s.pc[t]);
      if m > i {
        StillInJob(es, i, m, t, Find(q));
        assert s.list[..|s.list|] == s.list;
        if s.pc[t].Looks? && s.pc[t].at < |s.list| {
          FirstStep(s.list, s.pc[t].at, q);
        }
      }
    }
  }

  /** How many more steps of its own a thread inside needs to give the lock back, at most. */
  function StepsLeft(s: State, t: Tid): nat
    requires t in s.pc
  {
    match s.pc[t]
    case TakesId(_) => 1
    case Walks(_, at) => if at <= |s.list| then |s.list| - at + 2 else 2
    case Links(_, _) => 1
    case Looks(_, at) => if at <= |s.list| then |s.list| - at + 1 else 1
    case _ => 0
  }

  /** A free lock is taken by whoever tries, and who has it can go on and gives it back in so many steps. */
  lemma InsideFinishes(s: State, e: Event, t: Tid)
    requires Sound(s) && Enabled(s, e) && t in s.pc
    ensures e == Acquire(t) ==> Inside(Next(s, e).pc[t])
    ensures Inside(s.pc[t]) ==> Enabled(s, Step(t)) && StepsLeft(s, t) > 0
    ensures Inside(s.pc[t]) && e == Step(t) ==> StepsLeft(Next(s, e), t) < StepsLeft(s, t)
    ensures Inside(s.pc[t]) && e.tid != t ==> StepsLeft(Next(s, e), t) == StepsLeft(s, t)
    ensures StepsLeft(Next(s, e), t) == 0 && Inside(s.pc[t]) ==> Next(s, e).lock == None
  {
    assert WalkOk(s, s.pc[t]);
  }
}
