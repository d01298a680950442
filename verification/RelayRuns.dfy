/**
 The relay over whole runs, told from the events: what arrives on stdin during a session, up to the first ETX, is what
 the session's application gets; and relay and application always have a next turn until it has all of it.
 */
module RelayRuns {
  import opened Types
  import opened PipeSpec
  import opened PipeSteps
  import opened Relay

  // ---------------------------------------------------------------------------------------------
  // What has happened

  /** The application that the command line attached to last. */
  function Target(es: seq<Event>, k: nat): Option<AppId>
    requires k <= |es|
    decreases k
  {
    if k == 0 then None
    else match es[k - 1]
      case Attach(a) => Some(a)
      case NotFound => None
      case _ => Target(es, k - 1)
  }

  /** The bytes that `rx_char` has handed out in the application. */
  function HandedOut(es: seq<Event>, k: nat, a: AppId): seq<Byte>
    requires k <= |es|
    decreases k
  {
    if k == 0 then [] else
      HandedOut(es, k - 1, a) + match es[k - 1]
                                case AppTake(b, c) => if b == a then [c] else []
                                case _ => []
  }

  /** The message that a read of stdin takes at event `k`. */
  function TakenAt(ss: seq<System>, es: seq<Event>, k: nat): seq<Message>
    requires k < |es| < |ss|
  {
    if (es[k].CliRead? || es[k].RelayRead?) && ss[k].stdin != [] then [ss[k].stdin[0]] else []
  }

  /** The bytes that the relay has read since the command line attached last. */
  function Raw(ss: seq<System>, es: seq<Event>, k: nat): seq<Byte>
    requires k <= |es| < |ss|
    decreases k
  {
    if k == 0 || es[k - 1].Attach? || es[k - 1].NotFound? then []
    else Raw(ss, es, k - 1) + if es[k - 1].RelayRead? then Flat(TakenAt(ss, es, k - 1)) else []
  }

  /** What the sessions of an application that are over were to bring it. */
  function Before(ss: seq<System>, es: seq<Event>, k: nat, a: AppId): seq<Byte>
    requires k <= |es| < |ss|
    decreases k
  {
    if k == 0 then [] else
      Before(ss, es, k - 1, a)
      + if (es[k - 1].Attach? || es[k - 1].NotFound?) && Target(es, k - 1) == Some(a)
        then Cut(Raw(ss, es, k - 1)) else []
  }

  /** What all its sessions, with the open one, are to bring it. */
  function ToBring(ss: seq<System>, es: seq<Event>, k: nat, a: AppId): seq<Byte>
    requires k <= |es| < |ss|
  {
    Before(ss, es, k, a) + if Target(es, k) == Some(a) then Cut(Raw(ss, es, k)) else []
  }

  /** The state's history fields say what has happened. */
  ghost predicate Told(ss: seq<System>, es: seq<Event>, k: nat)
    requires k <= |es| < |ss|
  {
    && ss[k].mux == Target(es, k) && ss[k].taken == Raw(ss, es, k) && ss[k].capacity == ss[0].capacity
    && forall a :: a in ss[k].apps ==> AppTold(ss, es, k, a)
  }

  ghost predicate AppTold(ss: seq<System>, es: seq<Event>, k: nat, a: AppId)
    requires k <= |es| < |ss| && a in ss[k].apps
  {
    ss[k].apps[a].returned == HandedOut(es, k, a) && ss[k].apps[a].earlier == Before(ss, es, k, a)
  }

  lemma SessionTold(ss: seq<System>, es: seq<Event>, k: nat)
    requires IsRun(ss, es) && k < |es| && Told(ss, es, k)
    ensures ss[k + 1].mux == Target(es, k + 1) && ss[k + 1].capacity == ss[0].capacity
    ensures ss[k + 1].taken == Raw(ss, es, k + 1)
  {
    var s, e := ss[k], es[k];
    assert Enabled(s, e) && ss[k + 1] == Next(s, e);
    if e.RelayRead? && s.stdin != [] {
      assert Flat([s.stdin[0]]) == s.stdin[0] + Flat([]);
    }
  }

  /** What an event does to the history of one application. */
  lemma HistoryStep(s: System, e: Event, a: AppId)
    requires Enabled(s, e) && a in Next(s, e).apps && (s.mux.Some? ==> s.mux.value in s.apps)
    ensures a in s.apps
    ensures Next(s, e).apps[a].returned
            == s.apps[a].returned + match e { case AppTake(b, c) => if b == a then [c] else [] case _ => [] }
    ensures Next(s, e).apps[a].earlier
            == s.apps[a].earlier + if (e.Attach? || e.NotFound?) && s.mux == Some(a) then Cut(s.taken) else []
  {
  }

  lemma TellStep(ss: seq<System>, es: seq<Event>, k: nat)
    requires IsRun(ss, es) && k < |es| && Sound(ss[k]) && Told(ss, es, k)
    ensures Told(ss, es, k + 1)
  {
    SessionTold(ss, es, k);
    assert Enabled(ss[k], es[k]) && ss[k + 1] == Next(ss[k], es[k]);
    var n := k + 1;
    forall a | a in ss[n].apps ensures AppTold(ss, es, n, a) {
      HistoryStep(ss[k], es[k], a);
      assert AppTold(ss, es, k, a);
    }
  }

  lemma {:induction false} AlwaysTold(ss: seq<System>, es: seq<Event>, k: nat)
    requires IsRun(ss, es) && k <= |es|
    ensures Told(ss, es, k)
  {
    if k > 0 {
      AlwaysTold(ss, es, k - 1);
      AlwaysSound(ss, es, k - 1);
      TellStep(ss, es, k - 1);
    }
  }

  /**
   End to end, in every run and for every application: the bytes that `rx_char` has handed out, then its unread
   buffer, then the messages in the pipe, then the relay's cut message, are the bytes that the relay took from
   stdin in the application's sessions, each session cut at its first ETX. And a message in the pipe is never
   empty, so an `rx_char` that gets one has a byte to hand out.
   */
  lemma EndToEnd(ss: seq<System>, es: seq<Event>, k: nat, a: AppId)
    requires IsRun(ss, es) && k <= |es| && a in ss[k].apps
    ensures HandedOut(es, k, a) + InFlight(ss[k], a) == ToBring(ss, es, k, a)
    ensures forall i :: 0 <= i < |ss[k].apps[a].queue| ==> 0 < |ss[k].apps[a].queue[i]| <= RELAY_BUFFER
  {
    AlwaysSound(ss, es, k);
    AlwaysTold(ss, es, k);
    assert Streams(ss[k], a);
  }

  /** An application's session stays open exactly as long as the relay has seen no ETX in it. */
  lemma SessionEndsAtEtx(ss: seq<System>, es: seq<Event>, k: nat)
    requires IsRun(ss, es) && k <= |es|
    ensures ss[k].cliMode <==> Target(es, k) == None || ETX in Raw(ss, es, k)
  {
    AlwaysSound(ss, es, k);
    AlwaysTold(ss, es, k);
  }

  // ---------------------------------------------------------------------------------------------
  // From the keys to the application

  /** The messages that arrive between two events and find room in the stdin pipe. */
  function Arrivals(ss: seq<System>, es: seq<Event>, i: nat, j: nat): seq<Message>
    requires i <= j <= |es| < |ss|
    decreases j
  {
    if i == j then [] else Arrivals(ss, es, i, j - 1) + ArrivedAt(ss, es, j - 1)
  }

  function ArrivedAt(ss: seq<System>, es: seq<Event>, k: nat): seq<Message>
    requires k < |es| < |ss|
  {
    if es[k].Arrive? && |ss[k].stdin| < ss[0].capacity then [es[k].msg] else []
  }

  function TakenFrom(ss: seq<System>, es: seq<Event>, i: nat, j: nat): seq<Message>
    requires i <= j <= |es| < |ss|
    decreases j
  {
    if i == j then [] else TakenFrom(ss, es, i, j - 1) + TakenAt(ss, es, j - 1)
  }

  lemma StdinStep(ss: seq<System>, es: seq<Event>, k: nat)
    requires IsRun(ss, es) && k < |es|
    ensures Same(ss[k].stdin, ArrivedAt(ss, es, k), TakenAt(ss, es, k), ss[k + 1].stdin)
  {
    AlwaysSound(ss, es, k);
    AlwaysTold(ss, es, k);
    assert Enabled(ss[k], es[k]) && ss[k + 1] == Next(ss[k], es[k]);
    StdinNext(ss[k], es[k]);
  }

  lemma StdinNext(s: System, e: Event)
    requires Enabled(s, e) && |s.stdin| <= s.capacity
    ensures s.stdin + (if e.Arrive? && |s.stdin| < s.capacity then [e.msg] else [])
            == (if (e.CliRead? || e.RelayRead?) && s.stdin != [] then [s.stdin[0]] else []) + Next(s, e).stdin
  {
  }

  ghost predicate Same(a: seq<Message>, b: seq<Message>, c: seq<Message>, d: seq<Message>) {
    a + b == c + d
  }

  lemma QueueStep(first: seq<Message>, came: seq<Message>, more: seq<Message>, taken: seq<Message>, q: seq<Message>,
                  out: seq<Message>, q': seq<Message>)
    requires Same(first, came, taken, q) && Same(q, more, out, q')
    ensures Same(first, came + more, taken + out, q')
  {
    assert first + (came + more) == (first + came) + more;
    assert (taken + q) + more == taken + (q + more);
    assert (taken + out) + q' == taken + (out + q');
  }

  ghost predicate FlowsAt(ss: seq<System>, es: seq<Event>, k: nat)
    requires k < |es| < |ss|
  {
    Same(ss[k].stdin, ArrivedAt(ss, es, k), TakenAt(ss, es, k), ss[k + 1].stdin)
  }

  lemma {:induction false} StdinFlows(ss: seq<System>, es: seq<Event>, i: nat, j: nat)
    requires i <= j <= |es| < |ss| && forall k :: 0 <= k < |es| ==> FlowsAt(ss, es, k)
    ensures Same(ss[i].stdin, Arrivals(ss, es, i, j), TakenFrom(ss, es, i, j), ss[j].stdin)
    decreases j
  {
    if i < j {
      StdinFlows(ss, es, i, j - 1);
      assert FlowsAt(ss, es, j - 1);
      QueueStep(ss[i].stdin, Arrivals(ss, es, i, j - 1), ArrivedAt(ss, es, j - 1), TakenFrom(ss, es, i, j - 1),
                ss[j - 1].stdin, TakenAt(ss, es, j - 1), ss[j].stdin);
    }
  }

  /** What arrives is taken in the order in which it came, and nothing else is. */
  lemma StdinIsQueue(ss: seq<System>, es: seq<Event>, i: nat, j: nat)
    requires IsRun(ss, es) && i <= j <= |es|
    ensures ss[i].stdin + Arrivals(ss, es, i, j) == TakenFrom(ss, es, i, j) + ss[j].stdin
  {
    forall k | 0 <= k < |es| ensures FlowsAt(ss, es, k) {
      StdinStep(ss, es, k);
    }
    StdinFlows(ss, es, i, j);
  }

  lemma {:induction false} FlatConcat(a: seq<Message>, b: seq<Message>)
    ensures Flat(a + b) == Flat(a) + Flat(b)
  {
    if a == [] {
      assert a + b == b;
    } else {
      assert (a + b)[1..] == a[1..] + b;
      FlatConcat(a[1..], b);
    }
  }

  /** Event `i` attaches to an application, and no other attaching follows before `j`. */
  ghost predicate InSession(es: seq<Event>, i: nat, j: nat, a: AppId) {
    && i < j <= |es| && es[i] == Attach(a)
    && forall m :: i < m < j ==> !es[m].Attach? && !es[m].NotFound?
  }

  lemma {:induction false} SessionStays(ss: seq<System>, es: seq<Event>, i: nat, j: nat, a: AppId)
    requires |es| < |ss| && InSession(es, i, j, a)
    ensures Target(es, j) == Some(a) && Before(ss, es, j, a) == Before(ss, es, i + 1, a)
    decreases j
  {
    if j > i + 1 {
      SessionStays(ss, es, i, j - 1, a);
    }
  }

  /** The relay's bytes are all that was taken, or all up to after the ETX. */
  ghost predicate AllUpToEtx(raw: seq<Byte>, taken: seq<Byte>) {
    taken == raw || (ETX in raw && raw <= taken)
  }

  lemma {:induction false} SessionBytes(ss: seq<System>, es: seq<Event>, i: nat, j: nat, a: AppId)
    requires |es| < |ss| && InSession(es, i, j, a)
    requires forall m :: i < m < j ==> InTurn(ss, es, m)
    ensures AllUpToEtx(Raw(ss, es, j), Flat(TakenFrom(ss, es, i, j)))
    decreases j
  {
    if j > i + 1 {
      var m := j - 1;
      SessionBytes(ss, es, i, m, a);
      assert InTurn(ss, es, m);
      TakenOne(TakenFrom(ss, es, i, m), TakenAt(ss, es, m), Raw(ss, es, m), es[m].RelayRead?);
    } else {
      assert TakenFrom(ss, es, i, i) == [] && TakenAt(ss, es, i) == [];
    }
  }

  /** Up to the ETX the relay takes everything: cut there, what has been taken is the relay's. */
  lemma SessionTakes(ss: seq<System>, es: seq<Event>, i: nat, j: nat, a: AppId)
    requires IsRun(ss, es) && InSession(es, i, j, a)
    ensures Target(es, j) == Some(a) && Before(ss, es, j, a) == Before(ss, es, i + 1, a)
    ensures AllUpToEtx(Raw(ss, es, j), Flat(TakenFrom(ss, es, i, j)))
  {
    SessionStays(ss, es, i, j, a);
    forall m | i < m < j ensures InTurn(ss, es, m) {
      SessionStays(ss, es, i, m, a);
      ReadOnlyOpen(ss, es, m);
    }
    SessionBytes(ss, es, i, j, a);
  }

  /** Only the relay reads stdin as long as it has seen no ETX in the session, and only the command line afterwards. */
  ghost predicate InTurn(ss: seq<System>, es: seq<Event>, m: nat)
    requires m < |es| < |ss|
  {
    && (es[m].RelayRead? ==> ETX !in Raw(ss, es, m))
    && (TakenAt(ss, es, m) != [] && !es[m].RelayRead? ==> ETX in Raw(ss, es, m))
  }

  lemma ReadOnlyOpen(ss: seq<System>, es: seq<Event>, m: nat)
    requires IsRun(ss, es) && m < |es| && Target(es, m).Some?
    ensures InTurn(ss, es, m)
  {
    SessionEndsAtEtx(ss, es, m);
    AlwaysSound(ss, es, m);
    assert Enabled(ss[m], es[m]);
  }

  lemma TakenOne(before: seq<Message>, one: seq<Message>, raw: seq<Byte>, relay: bool)
    requires AllUpToEtx(raw, Flat(before))
    requires relay ==> ETX !in raw
    requires one != [] && !relay ==> ETX in raw
    ensures AllUpToEtx(raw + if relay then Flat(one) else [], Flat(before + one))
  {
    FlatConcat(before, one);
    assert raw + [] == raw && before + [] == before;
  }

  /**
   What was typed is what is delivered. In an open or ended session, once nothing is on the way to its application any
   more, the application has got, after what its earlier sessions brought, the bytes that were waiting on stdin when
   the session began or arrived since, all of them up to the first ETX, in order, and nothing else.
   */
  lemma SessionDelivers(ss: seq<System>, es: seq<Event>, i: nat, j: nat, a: AppId)
    requires IsRun(ss, es) && InSession(es, i, j, a) && a in ss[j].apps && Settled(ss[j], a)
    ensures HandedOut(es, j, a) == Before(ss, es, i + 1, a) + Cut(Flat(ss[i].stdin + Arrivals(ss, es, i, j)))
  {
    EndToEnd(ss, es, j, a);
    SessionTakes(ss, es, i, j, a);
    StdinIsQueue(ss, es, i, j);
    FlatConcat(TakenFrom(ss, es, i, j), ss[j].stdin);
    SessionIsOver(ss, es, i, j, a);
    CutSame(Raw(ss, es, j), Flat(TakenFrom(ss, es, i, j)), Flat(ss[j].stdin));
    assert HandedOut(es, j, a) + [] == HandedOut(es, j, a);
  }

  lemma SessionIsOver(ss: seq<System>, es: seq<Event>, i: nat, j: nat, a: AppId)
    requires IsRun(ss, es) && InSession(es, i, j, a) && a in ss[j].apps && Settled(ss[j], a)
    ensures ETX in Raw(ss, es, j) || ss[j].stdin == []
  {
    SessionTakes(ss, es, i, j, a);
    SessionEndsAtEtx(ss, es, j);
    AlwaysTold(ss, es, j);
  }

  lemma CutSame(raw: seq<Byte>, taken: seq<Byte>, left: seq<Byte>)
    requires AllUpToEtx(raw, taken)
    requires ETX in raw || left == []
    ensures Cut(raw) == Cut(taken + left)
  {
    var rest := taken[|raw|..] + left;
    assert taken + left == raw + rest;
    if ETX in raw {
      CutConcat(raw, rest);
    } else {
      assert raw + [] == raw;
    }
  }

  // ---------------------------------------------------------------------------------------------
  // Progress

  /** Nothing is on the way to the application, nor waiting for the relay to take it there. */
  ghost predicate Settled(s: System, a: AppId)
    requires a in s.apps
  {
    InFlight(s, a) == [] && (s.mux == Some(a) && !s.cliMode ==> s.stdin == [])
  }

  /** A turn on the application's way that finds what it looks for: a byte, a message, room in the pipe. */
  ghost predicate Effective(s: System, e: Event, a: AppId)
    requires a in s.apps
  {
    match e
    case Look => true
    case RelayRead => s.stdin != []
    case RelayWrite => s.mux.Some? && (s.mux.value in s.apps ==> |s.apps[s.mux.value].queue| < s.capacity)
    case AppRead(b) => b == a && s.apps[a].queue != []
    case AppTake(b, _) => b == a
    case _ => false
  }

  /** An event that brings more to do. */
  predicate Adds(s: System, e: Event) {
    e.Attach? || (e.Arrive? && !s.cliMode)
  }

  function Load(q: seq<Message>, each: nat): nat {
    if q == [] then 0 else |q[0]| + each + Load(q[1..], each)
  }

  function RelayLeft(s: System): nat {
    match s.pc
    case Top => if s.cliMode then 0 else 1
    case Reading => 0
    case Writing(buf) => |buf| + 3
  }

  /** How many effective turns there can still be. */
  function ToGo(s: System, a: AppId): nat
    requires a in s.apps
  {
    (if s.cliMode then 0 else Load(s.stdin, 4)) + RelayLeft(s) + Load(s.apps[a].queue, 1) + |s.apps[a].unread|
  }

  lemma {:induction false} LoadSnoc(q: seq<Message>, m: Message, each: nat)
    ensures Load(q + [m], each) == Load(q, each) + |m| + each
  {
    if q == [] {
      assert ([m])[1..] == [];
    } else {
      assert (q + [m])[1..] == q[1..] + [m];
      LoadSnoc(q[1..], m, each);
    }
  }

  /** Every effective turn brings the end nearer; no turn brings it further away unless it adds something to do. */
  lemma TurnLowers(s: System, e: Event, a: AppId)
    requires Sound(s) && Enabled(s, e) && a in s.apps && !Adds(s, e)
    ensures Lowers(s, e, a)
  {
    match e
    case RelayRead => ReadLowers(s, a);
    case RelayWrite => WriteLowers(s, a);
    case AppRead(b) => AppLowers(s, e, b, a);
    case AppTake(b, _) => AppLowers(s, e, b, a);
    case _ => IdleLowers(s, e, a);
  }

  ghost predicate Lowers(s: System, e: Event, a: AppId)
    requires Enabled(s, e) && a in s.apps
  {
    && a in Next(s, e).apps
    && ToGo(Next(s, e), a) <= ToGo(s, a)
    && (Effective(s, e, a) ==> ToGo(Next(s, e), a) < ToGo(s, a))
  }

  lemma ReadLowers(s: System, a: AppId)
    requires Sound(s) && s.pc.Reading? && a in s.apps
    ensures Lowers(s, RelayRead, a)
  {
    if s.stdin != [] {
      CutIsFirst(s.stdin[0], Cut(s.stdin[0]));
    }
  }

  lemma AppLowers(s: System, e: Event, b: AppId, a: AppId)
    requires Enabled(s, e) && a in s.apps && (e.AppRead? || e.AppTake?) && e.app == b
    ensures Lowers(s, e, a)
  {
  }

  lemma IdleLowers(s: System, e: Event, a: AppId)
    requires Sound(s) && Enabled(s, e) && a in s.apps && (e.Arrive? || e.CliRead? || e.NotFound? || e.Look?)
    requires !Adds(s, e)
    ensures Lowers(s, e, a)
  {
  }

  lemma WriteLowers(s: System, a: AppId)
    requires Sound(s) && s.pc.Writing? && a in s.apps
    ensures Lowers(s, RelayWrite, a)
  {
    LoadSnoc(s.apps[a].queue, s.pc.buf, 1);
  }

  /** Until all is settled, relay or application can make an effective turn. */
  lemma AlwaysATurn(s: System, a: AppId) returns (e: Event)
    requires Sound(s) && a in s.apps && !Settled(s, a)
    ensures Enabled(s, e) && Effective(s, e, a)
  {
    var app := s.apps[a];
    if app.unread != [] {
      e := AppTake(a, app.unread[0]);
    } else if app.queue != [] {
      e := AppRead(a);
    } else {
      e := if s.pc.Writing? then RelayWrite else if s.pc.Reading? then RelayRead else Look;
    }
  }

  /** The effective turns from event `i` to `j`. */
  ghost function Turns(ss: seq<System>, es: seq<Event>, i: nat, j: nat, a: AppId): nat
    requires i <= j <= |es| < |ss|
    requires forall m :: i <= m < j ==> a in ss[m].apps
    decreases j
  {
    if i == j then 0 else
      Turns(ss, es, i, j - 1, a) + if Effective(ss[j - 1], es[j - 1], a) then 1 else 0
  }

  /** The event takes its turn's worth off what is to go. */
  ghost predicate LowersAt(ss: seq<System>, es: seq<Event>, m: nat, a: AppId)
    requires m < |es| < |ss|
  {
    a in ss[m].apps ==>
      && a in ss[m + 1].apps
      && ToGo(ss[m + 1], a) + (if Effective(ss[m], es[m], a) then 1 else 0) <= ToGo(ss[m], a)
  }

  lemma {:induction false} TurnsAddUp(ss: seq<System>, es: seq<Event>, i: nat, j: nat, a: AppId)
    requires i <= j <= |es| < |ss| && a in ss[i].apps
    requires forall m :: i <= m < j ==> LowersAt(ss, es, m, a)
    ensures forall m :: i <= m <= j ==> a in ss[m].apps
    ensures ToGo(ss[j], a) + Turns(ss, es, i, j, a) <= ToGo(ss[i], a)
    decreases j
  {
    if i < j {
      TurnsAddUp(ss, es, i, j - 1, a);
      assert LowersAt(ss, es, j - 1, a);
    }
  }

  /** In every run, while nothing is added, there are at most so many effective turns. */
  lemma TurnsAreBounded(ss: seq<System>, es: seq<Event>, i: nat, j: nat, a: AppId)
    requires IsRun(ss, es) && i <= j <= |es| && a in ss[i].apps
    requires forall m :: i <= m < j ==> !Adds(ss[m], es[m])
    ensures forall m :: i <= m <= j ==> a in ss[m].apps
    ensures ToGo(ss[j], a) + Turns(ss, es, i, j, a) <= ToGo(ss[i], a)
  {
    forall m | i <= m < j ensures LowersAt(ss, es, m, a) {
      AlwaysSound(ss, es, m);
      if a in ss[m].apps {
        TurnLowers(ss[m], es[m], a);
      }
    }
    TurnsAddUp(ss, es, i, j, a);
  }

  lemma RunExtends(ss: seq<System>, es: seq<Event>, e: Event)
    requires IsRun(ss, es) && Enabled(ss[|es|], e)
    ensures IsRun(ss + [Next(ss[|es|], e)], es + [e])
  {
  }

  /** From event `n` on there are only effective turns. */
  ghost predicate OnlyTurns(ss: seq<System>, es: seq<Event>, n: nat, a: AppId) {
    && |es| < |ss|
    && forall m :: n <= m < |es| ==> a in ss[m].apps && Effective(ss[m], es[m], a)
  }

  /** The run goes on from `ss` by effective turns, as many as `bound` at most, until all is settled. */
  ghost predicate Settles(ss: seq<System>, es: seq<Event>, a: AppId, bound: nat, ss': seq<System>, es': seq<Event>) {
    && IsRun(ss', es') && ss <= ss' && es <= es' && |es'| <= |es| + bound
    && OnlyTurns(ss', es', |es|, a)
    && a in ss'[|es'|].apps && Settled(ss'[|es'|], a)
  }

  lemma OneTurnMore(ss: seq<System>, es: seq<Event>, e: Event, s: System, a: AppId, bound: nat,
                    ss': seq<System>, es': seq<Event>)
    requires Settles(ss + [s], es + [e], a, bound, ss', es') && |ss| == |es| + 1
    requires a in ss[|es|].apps && Effective(ss[|es|], e, a)
    ensures Settles(ss, es, a, bound + 1, ss', es')
  {
    assert ss'[|es|] == ss[|es|] && es'[|es|] == e by {
      assert (ss + [s])[|es|] == ss[|es|] && (es + [e])[|es|] == e;
    }
    assert ss <= ss + [s] && es <= es + [e];
  }

  lemma {:induction false} Settle(ss: seq<System>, es: seq<Event>, a: AppId, bound: nat)
    returns (ss': seq<System>, es': seq<Event>)
    requires IsRun(ss, es) && a in ss[|es|].apps && ToGo(ss[|es|], a) <= bound
    ensures Settles(ss, es, a, bound, ss', es')
    decreases bound
  {
    var s := ss[|es|];
    AlwaysSound(ss, es, |es|);
    if Settled(s, a) {
      ss', es' := ss, es;
    } else {
      var e := AlwaysATurn(s, a);
      TurnLowers(s, e, a);
      RunExtends(ss, es, e);
      ss', es' := Settle(ss + [Next(s, e)], es + [e], a, bound - 1);
      OneTurnMore(ss, es, e, Next(s, e), a, bound - 1, ss', es');
    }
  }

  /**
   Every run can be completed: from any point on, effective turns of relay and application alone, no more than `ToGo`
   of them, settle everything; the application then has all that it was to get. (There is always such a turn until
   then, by `AlwaysATurn`, and by `TurnsAreBounded` no choice of them goes on for longer.)
   */
  lemma CanSettle(ss: seq<System>, es: seq<Event>, a: AppId) returns (ss': seq<System>, es': seq<Event>)
    requires IsRun(ss, es) && a in ss[|es|].apps
    ensures IsRun(ss', es') && ss <= ss' && es <= es' && |es'| <= |es| + ToGo(ss[|es|], a)
    ensures OnlyTurns(ss', es', |es|, a)
    ensures a in ss'[|es'|].apps && Settled(ss'[|es'|], a)
    ensures HandedOut(es', |es'|, a) == ToBring(ss', es', |es'|, a)
  {
    ss', es' := Settle(ss, es, a, ToGo(ss[|es|], a));
    EndToEnd(ss', es', |es'|, a);
  }
}
