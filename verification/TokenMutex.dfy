/**
 The lock that the C library glue makes from a one-message pipe: reading the token takes the lock, writing it
 back gives it up. Threads append to a shared list or walk it while they hold the token.
 */
module TokenMutex {
  import opened Types
  import opened PipeSpec
  import opened PipeSteps

  type Node = nat

  datatype Job = AddNode(node: Node) | FindNode(id: Tid)

  /** Where a thread is; `at` is the place in the list that its walking pointer points into. */
  datatype Pc =
    | Out
    | Locking(job: Job)
    | Walking(job: Job, at: nat)
    | Linking(node: Node, at: nat)     // the end of the list was seen, the link not yet written
    | Unlocking(found: Option<Node>)   // for a search, the node it is going to return

  /**
   The library's shared state. `pipe` is the queue of the token pipe and `waiting` its list of waiting readers;
   `ids` holds the thread ids in the nodes.
   */
  datatype State = State(
    pipe: seq<Message>, waiting: set<Tid>, list: seq<Node>, ids: map<Node, Tid>, pc: map<Tid, Pc>)

  /** The token pipe holds one message and does not purge. */
  const CAPACITY: nat := 1

  /** The size of the token. */
  const TOKEN_LENGTH: nat := 8

  datatype Event =
    | Enter(tid: Tid, job: Job)
    | TryLock(tid: Tid)                // one turn of the locking loop
    | Step(tid: Tid)                   // one step of the walk
    | GiveBack(tid: Tid, token: Message) // the result of the write is not looked at
    | SetId(node: Node, id: Tid)       // a new thread fills in its own node, without the lock

  ghost predicate Enabled(s: State, e: Event) {
    match e
    case Enter(t, _) => t in s.pc && s.pc[t].Out?
    case TryLock(t) => t in s.pc && s.pc[t].Locking?
    case Step(t) => t in s.pc && (s.pc[t].Walking? || s.pc[t].Linking?)
    case GiveBack(t, token) => t in s.pc && s.pc[t].Unlocking? && |token| == TOKEN_LENGTH
    case SetId(_, _) => true
  }

  predicate Carries(s: State, node: Node, id: Tid) {
    node in s.ids && s.ids[node] == id
  }

  /** The walk's next step: look at the cell, move on, write the link, or be done. */
  function Walked(s: State, t: Tid): State
    requires t in s.pc && (s.pc[t].Walking? || s.pc[t].Linking?)
  {
    match s.pc[t]
    case Walking(job, at) =>
      if at >= |s.list| then
        s.(pc := s.pc[t := if job.AddNode? then Linking(job.node, at) else Unlocking(None)])
      else if job.FindNode? && Carries(s, s.list[at], job.id) then
        s.(pc := s.pc[t := Unlocking(Some(s.list[at]))])
      else
        s.(pc := s.pc[t := Walking(job, at + 1)])
    case Linking(node, at) =>
      // the write goes to the cell seen earlier: whatever has been linked there since is lost
      s.(list := s.list[..if at <= |s.list| then at else |s.list|] + [node],
         pc := s.pc[t := Unlocking(None)])
    case _ => s
  }

  function Next(s: State, e: Event): State
    requires Enabled(s, e)
  {
    match e
    case Enter(t, job) => s.(pc := s.pc[t := Locking(job)])
    case TryLock(t) =>
      if Answer(s.pipe, CAPACITY, false, ReadOp).Got? then
        s.(pipe := After(s.pipe, CAPACITY, false, ReadOp), pc := s.pc[t := Walking(s.pc[t].job, 0)])
      else
        s.(waiting := s.waiting + {t})
    case Step(t) => Walked(s, t)
    case GiveBack(t, token) =>
      s.(pipe := After(s.pipe, CAPACITY, false, WriteOp(token)),
         waiting := if Answer(s.pipe, CAPACITY, false, WriteOp(token)).Done? then {} else s.waiting,
         pc := s.pc[t := Out])
    case SetId(node, id) => s.(ids := s.ids[node := id])
  }

  /** After `libc_init`: the token is in the pipe and the list holds the root node. */
  ghost predicate Initial(s: State) {
    && |s.pipe| == 1 && s.waiting == {} && |s.list| == 1
    && forall t :: t in s.pc ==> s.pc[t].Out?
  }

  ghost predicate IsRun(ss: seq<State>, es: seq<Event>) {
    && |ss| == |es| + 1 && Initial(ss[0])
    && forall i :: 0 <= i < |es| ==> Enabled(ss[i], es[i]) && ss[i + 1] == Next(ss[i], es[i])
  }

  // ---------------------------------------------------------------------------------------------

  predicate Holds(p: Pc) {
    p.Walking? || p.Linking? || p.Unlocking?
  }

  function Holders(s: State): set<Tid> {
    set t | t in s.pc && Holds(s.pc[t])
  }

  /** One token: with one holder, or in the pipe. */
  ghost predicate OneToken(s: State) {
    |Holders(s)| + |s.pipe| == 1
  }

  ghost predicate Consistent(s: State) {
    && OneToken(s)
    && (s.waiting != {} ==> s.pipe == [])
    && (forall t :: t in s.waiting ==> t in s.pc && s.pc[t].Locking?)
    && (forall t :: t in s.pc && s.pc[t].Walking? ==> s.pc[t].at <= |s.list|)
    && (forall t :: t in s.pc && s.pc[t].Linking? ==> s.pc[t].at == |s.list|)
  }

  lemma OneHolder(s: State, t: Tid, u: Tid)
    requires OneToken(s) && t in Holders(s) && u in Holders(s)
    ensures t == u && s.pipe == []
  {
    if t != u {
      assert {t, u} <= Holders(s);
      SubsetSize({t, u}, Holders(s));
    } else {
      SubsetSize({t}, Holders(s));
    }
  }

  lemma {:induction false} SubsetSize(a: set<Tid>, b: set<Tid>)
    requires a <= b
    ensures |a| <= |b|
  {
    if a != {} {
      var x :| x in a;
      SubsetSize(a - {x}, b - {x});
    }
  }

  lemma NextHolders(s: State, e: Event)
    requires Enabled(s, e)
    ensures var t := if e.SetId? then 0 else e.tid;
            Holders(Next(s, e)) == match e
                                   case TryLock(_) => if s.pipe == [] then Holders(s) else Holders(s) + {t}
                                   case GiveBack(_, _) => Holders(s) - {t}
                                   case _ => Holders(s)
  {
  }

  lemma OnlyHolder(s: State, t: Tid)
    requires OneToken(s) && t in Holders(s)
    ensures s.pipe == [] && forall u :: u in s.pc && u != t ==> !Holds(s.pc[u])
  {
    OneHolder(s, t, t);
    forall u | u in s.pc && u != t ensures !Holds(s.pc[u]) {
      if Holds(s.pc[u]) {
        OneHolder(s, t, u);
      }
    }
  }

  lemma StepConsistent(s: State, t: Tid)
    requires Consistent(s) && Enabled(s, Step(t))
    ensures Consistent(Next(s, Step(t)))
  {
    NextHolders(s, Step(t));
    OnlyHolder(s, t);
    assert s.list[..|s.list|] == s.list;
  }

  lemma UnlockConsistent(s: State, t: Tid, token: Message)
    requires Consistent(s) && Enabled(s, GiveBack(t, token))
    ensures Consistent(Next(s, GiveBack(t, token)))
  {
    NextHolders(s, GiveBack(t, token));
    OnlyHolder(s, t);
  }

  lemma NextConsistent(s: State, e: Event)
    requires Consistent(s) && Enabled(s, e)
    ensures Consistent(Next(s, e))
  {
    match e
    case Step(t) => StepConsistent(s, t);
    case GiveBack(t, token) => UnlockConsistent(s, t, token);
    case TryLock(t) => LockConsistent(s, t);
    case _ => NextHolders(s, e);
  }

  lemma LockConsistent(s: State, t: Tid)
    requires Consistent(s) && Enabled(s, TryLock(t))
    ensures Consistent(Next(s, TryLock(t)))
  {
    NextHolders(s, TryLock(t));
  }

  lemma {:induction false} AlwaysConsistent(ss: seq<State>, es: seq<Event>, k: nat)
    requires IsRun(ss, es) && k < |ss|
    ensures Consistent(ss[k])
  {
    if k > 0 {
      AlwaysConsistent(ss, es, k - 1);
      NextConsistent(ss[k - 1], es[k - 1]);
    } else {
      assert Holders(ss[0]) == {};
    }
  }

  /**
   Over every run the threads holding the token and the token in the pipe add up to one. So at most one thread
   is in the list code, no unlock finds the pipe full, and threads wait only while some thread holds the token.
   */
  lemma MutualExclusion(ss: seq<State>, es: seq<Event>, k: nat)
    requires IsRun(ss, es) && k < |ss|
    ensures |Holders(ss[k])| + |ss[k].pipe| == 1
    ensures forall t, u :: t in Holders(ss[k]) && u in Holders(ss[k]) ==> t == u
    ensures forall t, token :: t in Holders(ss[k]) ==> Answer(ss[k].pipe, CAPACITY, false, WriteOp(token)) == Done
    ensures ss[k].waiting != {} ==> Holders(ss[k]) != {}
  {
    AlwaysConsistent(ss, es, k);
    var s := ss[k];
    forall t, u | t in Holders(s) && u in Holders(s) ensures t == u && s.pipe == [] {
      OneHolder(s, t, u);
    }
  }

  /** How many more steps of its own a holder needs to give the token back. */
  function StepsLeft(s: State, t: Tid): nat
    requires t in s.pc
  {
    match s.pc[t]
    case Walking(_, at) => if at <= |s.list| then |s.list| - at + 3 else 3
    case Linking(_, _) => 2
    case Unlocking(_) => 1
    case _ => 0
  }

  /**
   Every way out returns the token: a holder can always take its next step, each such step brings it nearer to giving
   the token back, and no step of another thread takes it further away.
   */
  lemma HolderFinishes(s: State, t: Tid, e: Event)
    requires Consistent(s) && t in Holders(s) && Enabled(s, e)
    ensures s.pc[t].Unlocking? || Enabled(s, Step(t))
    ensures var s' := Next(s, e);
            && t in s'.pc
            && (!e.SetId? && e.tid == t ==> StepsLeft(s', t) < StepsLeft(s, t))
            && (e.SetId? || e.tid != t ==> StepsLeft(s', t) == StepsLeft(s, t))
    ensures StepsLeft(Next(s, e), t) == 0 ==> e.GiveBack? && e.tid == t && Next(s, e).pipe == [e.token]
  {
    if !e.SetId? && e.tid in Holders(s) {
      OneHolder(s, t, e.tid);
    }
    OneHolder(s, t, t);
  }

  /** A free token is there to be taken: the next turn of a locking loop gets it, and waits only if a thread has it. */
  lemma FreeTokenIsTaken(s: State, t: Tid)
    requires Consistent(s) && Enabled(s, TryLock(t))
    ensures t in Holders(Next(s, TryLock(t))) <==> Holders(s) == {}
    ensures t in Next(s, TryLock(t)).waiting <==> Holders(s) != {}
  {
    NextHolders(s, TryLock(t));
    assert |Holders(s)| == if s.pipe == [] then 1 else 0;
  }

  // ---------------------------------------------------------------------------------------------
  // What the calls come to, told from the events alone

  /** The job that `t` is in after the first `k` events. */
  function JobOf(es: seq<Event>, k: nat, t: Tid): Option<Job>
    requires k <= |es|
    decreases k
  {
    if k == 0 then None
    else match es[k - 1]
      case Enter(u, job) => if u == t then Some(job) else JobOf(es, k - 1, t)
      case GiveBack(u, _) => if u == t then None else JobOf(es, k - 1, t)
      case _ => JobOf(es, k - 1, t)
  }

  /** The nodes of the appends that are over after `k` events, in the order in which they ended. */
  function Ended(es: seq<Event>, k: nat): seq<Node>
    requires k <= |es|
    decreases k
  {
    if k == 0 then [] else
      Ended(es, k - 1) + match es[k - 1]
                         case GiveBack(t, _) => NodeOf(JobOf(es, k - 1, t))
                         case _ => []
  }

  function NodeOf(job: Option<Job>): seq<Node> {
    match job
    case Some(AddNode(n)) => [n]
    case _ => []
  }

  /** The id that `node` carries after `k` events, if it is `id`. */
  predicate HadId(s0: State, es: seq<Event>, k: nat, node: Node, id: Tid)
    requires k <= |es|
    decreases k
  {
    if k == 0 then Carries(s0, node, id)
    else if es[k - 1].SetId? && es[k - 1].node == node then es[k - 1].id == id
    else HadId(s0, es, k - 1, node, id)
  }

  /** No `GiveBack` of `t` falls between its `Enter` at `i` and `k`. */
  ghost predicate Within(es: seq<Event>, i: nat, k: nat, t: Tid) {
    i < k <= |es| && forall m :: i < m < k && es[m].GiveBack? ==> es[m].tid != t
  }

  /** A thread is where its job puts it. */
  ghost predicate AtWork(p: Pc, job: Option<Job>) {
    match p
    case Out => job == None
    case Locking(j) => job == Some(j)
    case Walking(j, _) => job == Some(j)
    case Linking(n, _) => job == Some(AddNode(n))
    case Unlocking(found) => job.Some? && (found.Some? ==> job.value.FindNode?)
  }

  /** The node that the holder has linked before giving the token back. */
  function JustLinked(p: Pc, job: Option<Job>): seq<Node> {
    if p.Unlocking? then NodeOf(job) else []
  }

  /** What the list is, told from the events: with the token free, the first list and the ended appends. */
  ghost predicate ListIs(s: State, first: seq<Node>, es: seq<Event>, k: nat)
    requires k <= |es|
  {
    && (forall t :: t in s.pc ==> AtWork(s.pc[t], JobOf(es, k, t)))
    && (Holders(s) == {} ==> s.list == first + Ended(es, k))
    && (forall t :: t in Holders(s) ==> s.list == first + Ended(es, k) + JustLinked(s.pc[t], JobOf(es, k, t)))
  }

  lemma ListStep(s: State, first: seq<Node>, es: seq<Event>, k: nat)
    requires k < |es| && Consistent(s) && Enabled(s, es[k]) && ListIs(s, first, es, k)
    ensures ListIs(Next(s, es[k]), first, es, k + 1)
  {
    match es[k]
    case Step(t) => WalkStep(s, first, es, k, t);
    case GiveBack(t, _) => GiveBackStep(s, first, es, k, t);
    case TryLock(t) => TryStep(s, first, es, k, t);
    case Enter(t, job) => EnterStep(s, first, es, k, t);
    case SetId(_, _) => NextHolders(s, es[k]);
  }

  lemma EnterStep(s: State, first: seq<Node>, es: seq<Event>, k: nat, t: Tid)
    requires k < |es| && Consistent(s) && Enabled(s, es[k]) && ListIs(s, first, es, k) && es[k].Enter?
    requires es[k].tid == t
    ensures ListIs(Next(s, es[k]), first, es, k + 1)
  {
    NextHolders(s, es[k]);
    var s' := Next(s, es[k]);
    forall u | u in Holders(s')
      ensures u in Holders(s) && s'.pc[u] == s.pc[u] && JobOf(es, k + 1, u) == JobOf(es, k, u)
    {
    }
  }

  lemma WalkStep(s: State, first: seq<Node>, es: seq<Event>, k: nat, t: Tid)
    requires k < |es| && Consistent(s) && Enabled(s, es[k]) && ListIs(s, first, es, k) && es[k] == Step(t)
    ensures ListIs(Next(s, es[k]), first, es, k + 1)
  {
    NextHolders(s, es[k]);
    OnlyHolder(s, t);
    assert s.list[..|s.list|] == s.list;
    assert JobOf(es, k + 1, t) == JobOf(es, k, t);
  }

  lemma GiveBackStep(s: State, first: seq<Node>, es: seq<Event>, k: nat, t: Tid)
    requires k < |es| && Consistent(s) && Enabled(s, es[k]) && ListIs(s, first, es, k) && es[k].GiveBack?
    requires es[k].tid == t
    ensures ListIs(Next(s, es[k]), first, es, k + 1)
  {
    NextHolders(s, es[k]);
    OnlyHolder(s, t);
    assert first + Ended(es, k) + NodeOf(JobOf(es, k, t)) == first + (Ended(es, k) + NodeOf(JobOf(es, k, t)));
  }

  lemma TryStep(s: State, first: seq<Node>, es: seq<Event>, k: nat, t: Tid)
    requires k < |es| && Consistent(s) && Enabled(s, es[k]) && ListIs(s, first, es, k) && es[k] == TryLock(t)
    ensures ListIs(Next(s, es[k]), first, es, k + 1)
  {
    NextHolders(s, es[k]);
    FreeTokenIsTaken(s, t);
    SameJobs(es, k);
    if Holders(s) == {} {
      Taken(s, first, es, k, t);
    }
  }

  lemma SameJobs(es: seq<Event>, k: nat)
    requires k < |es| && !es[k].Enter? && !es[k].GiveBack?
    ensures Ended(es, k + 1) == Ended(es, k) && forall u :: JobOf(es, k + 1, u) == JobOf(es, k, u)
  {
  }

  lemma Taken(s: State, first: seq<Node>, es: seq<Event>, k: nat, t: Tid)
    requires k < |es| && Consistent(s) && Enabled(s, es[k]) && ListIs(s, first, es, k) && es[k] == TryLock(t)
    requires Holders(s) == {} && Ended(es, k + 1) == Ended(es, k)
    requires forall u :: JobOf(es, k + 1, u) == JobOf(es, k, u)
    ensures ListIs(Next(s, es[k]), first, es, k + 1)
  {
    NextHolders(s, es[k]);
    FreeTokenIsTaken(s, t);
    assert first + Ended(es, k) + [] == first + Ended(es, k);
  }

  lemma {:induction false} AlwaysListIs(ss: seq<State>, es: seq<Event>, k: nat)
    requires IsRun(ss, es) && k < |ss|
    ensures ListIs(ss[k], ss[0].list, es, k)
  {
    if k > 0 {
      AlwaysListIs(ss, es, k - 1);
      AlwaysConsistent(ss, es, k - 1);
      ListStep(ss[k - 1], ss[0].list, es, k - 1);
    } else {
      assert ss[0].list + [] == ss[0].list;
    }
  }

  /**
   In every run, whenever the token is free, the list is the root and then the nodes of exactly the appends that
   are over, once each and in the order in which they ended. While it is held, at most the holder's own node comes
   after them.
   */
  lemma ListIsAppends(ss: seq<State>, es: seq<Event>, k: nat)
    requires IsRun(ss, es) && k < |ss|
    ensures Holders(ss[k]) == {} ==> ss[k].list == ss[0].list + Ended(es, k)
    ensures forall t :: t in Holders(ss[k]) ==>
              ss[k].list == ss[0].list + Ended(es, k)
              || (exists n :: JobOf(es, k, t) == Some(AddNode(n)) && ss[k].list == ss[0].list + Ended(es, k) + [n])
  {
    AlwaysListIs(ss, es, k);
    assert ss[0].list + Ended(es, k) + [] == ss[0].list + Ended(es, k);
  }

  lemma {:induction false} StillInJob(ss: seq<State>, es: seq<Event>, i: nat, k: nat, t: Tid, job: Job)
    requires IsRun(ss, es) && Within(es, i, k, t) && es[i] == Enter(t, job)
    ensures JobOf(es, k, t) == Some(job)
  {
    if k > i + 1 {
      StillInJob(ss, es, i, k - 1, t, job);
      AlwaysListIs(ss, es, k - 1);
      assert Enabled(ss[k - 1], es[k - 1]);
    }
  }

  lemma {:induction false} EndedStays(es: seq<Event>, j: nat, k: nat)
    requires j <= k <= |es|
    ensures Ended(es, j) <= Ended(es, k)
    decreases k
  {
    if j < k {
      EndedStays(es, j, k - 1);
    }
  }

  /** No append is lost: from the end of the call on, its node is in the list for ever. */
  lemma NoLostNode(ss: seq<State>, es: seq<Event>, i: nat, j: nat, k: nat, t: Tid, n: Node)
    requires IsRun(ss, es) && Within(es, i, j, t) && es[i] == Enter(t, AddNode(n))
    requires j < k < |ss| && es[j].GiveBack? && es[j].tid == t
    ensures n in ss[k].list
  {
    StillInJob(ss, es, i, j, t, AddNode(n));
    assert Ended(es, j + 1) == Ended(es, j) + [n];
    EndedStays(es, j + 1, k);
    AlwaysListIs(ss, es, k);
    assert Ended(es, k)[|Ended(es, j)|] == n;
    if t' :| t' in Holders(ss[k]) {
      assert ss[k].list == ss[0].list + Ended(es, k) + JustLinked(ss[k].pc[t'], JobOf(es, k, t'));
    }
  }

  // ---------------------------------------------------------------------------------------------
  // Searches

  lemma {:induction false} IdsFollow(ss: seq<State>, es: seq<Event>, k: nat, node: Node, id: Tid)
    requires IsRun(ss, es) && k < |ss|
    ensures Carries(ss[k], node, id) <==> HadId(ss[0], es, k, node, id)
  {
    if k > 0 {
      IdsFollow(ss, es, k - 1, node, id);
      assert ss[k] == Next(ss[k - 1], es[k - 1]);
    }
  }

  /** At some time from `i` to before `k` the node did not carry the id. */
  ghost predicate Lacked(s0: State, es: seq<Event>, i: nat, k: nat, node: Node, id: Tid)
    requires k <= |es|
  {
    exists m: nat :: i <= m < k && !HadId(s0, es, m, node, id)
  }

  /** At some time from `i` to before `k` it did. */
  ghost predicate Carried(s0: State, es: seq<Event>, i: nat, k: nat, node: Node, id: Tid)
    requires k <= |es|
  {
    exists m: nat :: i <= m < k && HadId(s0, es, m, node, id)
  }

  /** The first `n` nodes were each seen without the id. */
  ghost predicate Passed(s0: State, es: seq<Event>, i: nat, k: nat, list: seq<Node>, n: nat, id: Tid)
    requires k <= |es| && n <= |list|
  {
    forall p :: 0 <= p < n ==> Lacked(s0, es, i, k, list[p], id)
  }

  /** `found` is the first node of the list seen to carry the id, None if each was seen without it. */
  ghost predicate Answers(s0: State, es: seq<Event>, i: nat, k: nat, list: seq<Node>, id: Tid, found: Option<Node>)
    requires k <= |es|
  {
    match found
    case None => Passed(s0, es, i, k, list, |list|, id)
    case Some(node) => exists at: nat :: at < |list| && list[at] == node && Passed(s0, es, i, k, list, at, id)
                                         && Carried(s0, es, i, k, list[at], id)
  }

  ghost predicate Searches(s0: State, es: seq<Event>, i: nat, k: nat, s: State, p: Pc, id: Tid)
    requires k <= |es|
  {
    match p
    case Walking(_, at) => at <= |s.list| && Passed(s0, es, i, k, s.list, at, id)
    case Unlocking(found) => Answers(s0, es, i, k, s.list, id, found)
    case _ => true
  }

  /** What was seen by `k` was seen by `k + 1`. */
  lemma SeenStays(s0: State, es: seq<Event>, i: nat, k: nat, s: State, p: Pc, id: Tid)
    requires k < |es| && Searches(s0, es, i, k, s, p, id)
    ensures Searches(s0, es, i, k + 1, s, p, id)
  {
    assert forall node :: Lacked(s0, es, i, k, node, id) ==> Lacked(s0, es, i, k + 1, node, id);
    assert forall node :: Carried(s0, es, i, k, node, id) ==> Carried(s0, es, i, k + 1, node, id);
    if p.Unlocking? && p.found.Some? {
      var at: nat :| at < |s.list| && s.list[at] == p.found.value && Passed(s0, es, i, k, s.list, at, id)
                     && Carried(s0, es, i, k, s.list[at], id);
      assert Passed(s0, es, i, k + 1, s.list, at, id);
    }
  }

  /** The step that looks at the next node. */
  lemma LookStep(ss: seq<State>, es: seq<Event>, i: nat, k: nat, t: Tid, id: Tid)
    requires IsRun(ss, es) && i <= k < |es| && es[k] == Step(t) && Consistent(ss[k])
    requires t in ss[k].pc && ss[k].pc[t].Walking? && ss[k].pc[t].job == FindNode(id)
    requires Searches(ss[0], es, i, k, ss[k], ss[k].pc[t], id)
    ensures Searches(ss[0], es, i, k + 1, ss[k + 1], ss[k + 1].pc[t], id)
  {
    var s, s0 := ss[k], ss[0];
    SeenStays(s0, es, i, k, s, s.pc[t], id);
    var at := s.pc[t].at;
    assert ss[k + 1] == Walked(s, t);
    if at < |s.list| {
      IdsFollow(ss, es, k, s.list[at], id);
      if Carries(s, s.list[at], id) {
        assert Carried(s0, es, i, k + 1, s.list[at], id);
      } else {
        assert Lacked(s0, es, i, k + 1, s.list[at], id);
      }
    }
  }

  lemma {:induction false} SearchRuns(ss: seq<State>, es: seq<Event>, i: nat, k: nat, t: Tid, id: Tid)
    requires IsRun(ss, es) && Within(es, i, k, t) && es[i] == Enter(t, FindNode(id))
    ensures t in ss[k].pc && JobOf(es, k, t) == Some(FindNode(id))
    ensures AtWork(ss[k].pc[t], Some(FindNode(id))) && Searches(ss[0], es, i, k, ss[k], ss[k].pc[t], id)
  {
    StillInJob(ss, es, i, k, t, FindNode(id));
    if k > i + 1 {
      SearchRuns(ss, es, i, k - 1, t, id);
      SearchStep(ss, es, i, k - 1, t, id);
    } else {
      assert Enabled(ss[i], es[i]) && ss[i + 1] == Next(ss[i], es[i]);
    }
  }

  lemma SearchStep(ss: seq<State>, es: seq<Event>, i: nat, k: nat, t: Tid, id: Tid)
    requires IsRun(ss, es) && i <= k && Within(es, i, k + 1, t) && es[i] == Enter(t, FindNode(id))
    requires t in ss[k].pc && JobOf(es, k, t) == Some(FindNode(id)) && AtWork(ss[k].pc[t], Some(FindNode(id)))
    requires JobOf(es, k + 1, t) == Some(FindNode(id))
    requires Searches(ss[0], es, i, k, ss[k], ss[k].pc[t], id)
    ensures t in ss[k + 1].pc && AtWork(ss[k + 1].pc[t], Some(FindNode(id)))
    ensures Searches(ss[0], es, i, k + 1, ss[k + 1], ss[k + 1].pc[t], id)
  {
    AlwaysConsistent(ss, es, k);
    AlwaysListIs(ss, es, k + 1);
    var s, e := ss[k], es[k];
    assert Enabled(s, e) && ss[k + 1] == Next(s, e);
    if e == Step(t) {
      LookStep(ss, es, i, k, t, id);
    } else {
      OthersStep(s, e, t);
      SeenStays(ss[0], es, i, k, s, s.pc[t], id);
    }
  }

  /** While a thread is at the list, nothing that others do moves it or changes the list. */
  lemma OthersStep(s: State, e: Event, t: Tid)
    requires Consistent(s) && Enabled(s, e) && t in s.pc && !(e.Step? && e.tid == t) && !(e.GiveBack? && e.tid == t)
    ensures t in Next(s, e).pc
    ensures Holds(s.pc[t]) ==> Next(s, e).pc[t] == s.pc[t] && Next(s, e).list == s.list
    ensures s.pc[t].Locking? ==> Next(s, e).pc[t] == s.pc[t] || Next(s, e).pc[t] == Walking(s.pc[t].job, 0)
  {
    if Holds(s.pc[t]) {
      OnlyHolder(s, t);
    }
  }

  /**
   The result of every search: the node it returns was seen with the id, and every node before it in the list was
   seen without, between the call and the return; a search that returns nothing has seen every node without it.
   */
  lemma SearchResult(ss: seq<State>, es: seq<Event>, i: nat, k: nat, t: Tid, id: Tid)
    requires IsRun(ss, es) && Within(es, i, k, t) && es[i] == Enter(t, FindNode(id))
    requires k < |es| && es[k].GiveBack? && es[k].tid == t
    ensures t in ss[k].pc && ss[k].pc[t].Unlocking?
    ensures Answers(ss[0], es, i, k, ss[k].list, id, ss[k].pc[t].found)
  {
    SearchRuns(ss, es, i, k, t, id);
    assert Enabled(ss[k], es[k]);
  }

  /** So a thread whose node alone carries its id all the while gets its own node: what `__getreent` is for. */
  lemma FindsOwnNode(ss: seq<State>, es: seq<Event>, i: nat, k: nat, t: Tid, id: Tid, own: Node)
    requires IsRun(ss, es) && Within(es, i, k, t) && es[i] == Enter(t, FindNode(id))
    requires k < |es| && es[k].GiveBack? && es[k].tid == t && own in ss[k].list
    requires forall m, n :: i <= m < k && n in ss[k].list ==> (HadId(ss[0], es, m, n, id) <==> n == own)
    ensures t in ss[k].pc && ss[k].pc[t] == Unlocking(Some(own))
  {
    SearchResult(ss, es, i, k, t, id);
    var list := ss[k].list;
    assert forall n :: n in list && Lacked(ss[0], es, i, k, n, id) ==> n != own;
    assert forall n :: n in list && Carried(ss[0], es, i, k, n, id) ==> n == own;
    var p :| 0 <= p < |list| && list[p] == own;
    assert !Passed(ss[0], es, i, k, list, |list|, id);
  }
}
