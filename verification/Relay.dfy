/**
 The terminal relay: while attached to an application the terminal server reads messages from its own stdin pipe,
 cuts each at the first ETX (which ends the session) and writes what is left to the application's stdin pipe;
 `rx_char` in the application takes the bytes out of the messages one by one.
 */
module Relay {
  import opened Types
  import opened PipeSpec
  import opened PipeSteps

  const ETX: Byte := 3

  /** The size of the relay's buffer, which a message from stdin has to fit into. */
  const RELAY_BUFFER: nat := 256

  // ---------------------------------------------------------------------------------------------
  // Cutting and joining bytes

  /** What comes before the first ETX. */
  function Cut(s: seq<Byte>): seq<Byte> {
    if s == [] || s[0] == ETX then [] else [s[0]] + Cut(s[1..])
  }

  lemma {:induction false} CutIsFirst(s: seq<Byte>, p: seq<Byte>)
    ensures p == Cut(s) <==> p <= s && ETX !in p && (|p| < |s| ==> s[|p|] == ETX)
  {
    if s != [] && s[0] != ETX {
      if p != [] {
        CutIsFirst(s[1..], p[1..]);
        assert p == [p[0]] + p[1..];
        assert p <= s <==> p[0] == s[0] && p[1..] <= s[1..] by {
          assert s == [s[0]] + s[1..];
        }
      }
    }
  }

  /** A session's stream, cut, is what the messages give when each is cut on its own up to the one with the ETX. */
  lemma {:induction false} CutConcat(a: seq<Byte>, b: seq<Byte>)
    ensures Cut(a + b) == if ETX in a then Cut(a) else a + Cut(b)
  {
    if a == [] {
      assert a + b == b;
    } else {
      assert (a + b)[0] == a[0] && (a + b)[1..] == a[1..] + b;
      if a[0] != ETX {
        CutConcat(a[1..], b);
        assert [a[0]] + (a[1..] + Cut(b)) == a + Cut(b);
        assert ETX in a <==> ETX in a[1..];
      }
    }
  }

  lemma {:induction false} CutWhole(s: seq<Byte>)
    requires ETX !in s
    ensures Cut(s) == s
  {
    if s != [] {
      CutWhole(s[1..]);
    }
  }

  function Flat(q: seq<Message>): seq<Byte> {
    if q == [] then [] else q[0] + Flat(q[1..])
  }

  lemma {:induction false} FlatSnoc(q: seq<Message>, m: Message)
    ensures Flat(q + [m]) == Flat(q) + m
  {
    if q == [] {
      assert Flat([m]) == m + [];
    } else {
      assert (q + [m])[1..] == q[1..] + [m];
      FlatSnoc(q[1..], m);
    }
  }

  // ---------------------------------------------------------------------------------------------
  // The code at both ends

  class Terminal {
    var cliMode: bool

    constructor ()
      ensures cliMode
    {
      cliMode := true;
    }

    /** The loop over a message; cutting the size also ends the loop. */
    method CutAtEtx(buf: array<Byte>, size: nat) returns (sz: nat)
      requires size <= buf.Length
      modifies this
      ensures sz <= size && buf[..sz] == Cut(buf[..size])
      ensures cliMode == (old(cliMode) || ETX in buf[..size])
    {
      sz := size;
      var i := 0;
      while i < sz
        invariant sz <= size && ETX !in buf[..if i < sz then i else sz]
        invariant sz < size ==> buf[sz] == ETX && i == sz + 1
        invariant cliMode == (old(cliMode) || sz < size)
        decreases size - i
      {
        if buf[i] == ETX {
          cliMode := true;
          sz := i;
        }
        i := i + 1;
      }
      CutIsFirst(buf[..size], buf[..sz]);
      assert sz < size ==> buf[..size][sz] == ETX;
    }
  }

  /** All the bytes that a row of answers from the read system call gives. */
  function Delivered(answers: seq<Option<Message>>): seq<Byte> {
    if answers == [] then []
    else (if answers[0].Some? then answers[0].value else []) + Delivered(answers[1..])
  }

  lemma {:induction false} DeliveredConcat(a: seq<Option<Message>>, b: seq<Option<Message>>)
    ensures Delivered(a + b) == Delivered(a) + Delivered(b)
  {
    if a == [] {
      assert a + b == b;
    } else {
      assert (a + b)[1..] == a[1..] + b;
      DeliveredConcat(a[1..], b);
    }
  }

  lemma Joined(answers: seq<Option<Message>>, n: nat, k: nat)
    requires n + 1 + k <= |answers| && answers[n].Some? && Delivered(answers[..n]) == []
    ensures Delivered(answers[..n + 1 + k]) == answers[n].value + Delivered(answers[n + 1..][..k])
  {
    var rest, part := answers[n + 1..][..k], answers[n..n + 1 + k];
    assert answers[..n + 1 + k] == answers[..n] + part;
    assert part == [answers[n]] + rest by {
      assert forall i :: 0 <= i < k ==> rest[i] == answers[n + 1 + i] == part[1 + i];
    }
    DeliveredConcat(answers[..n], [answers[n]] + rest);
    assert ([answers[n]] + rest)[1..] == rest;
  }

  /** No message is longer than the buffer. */
  predicate AllFit(answers: seq<Option<Message>>, size: nat) {
    forall i :: 0 <= i < |answers| && answers[i].Some? ==> |answers[i].value| <= size
  }

  lemma RestFits(answers: seq<Option<Message>>, size: nat, n: nat)
    requires AllFit(answers, size) && n < |answers| && answers[n].Some?
    ensures |answers[n].value| <= size && AllFit(answers[n + 1..], size)
  {
  }

  /**
   From a buffer with the bytes `before`, and with the first `used` of the answers, the byte `c` is handed out and the
   bytes `after` are left. Answers are asked for only once the buffer is used up, and only until one brings a byte.
   */
  ghost predicate HandsOut(answers: seq<Option<Message>>, used: nat, before: seq<Byte>, c: Byte, after: seq<Byte>) {
    && used <= |answers| && [c] + after == before + Delivered(answers[..used])
    && (used != 0 ==> before == [] && Delivered(answers[..used - 1]) == [])
  }

  /** What the rest of the answers gives after a message, with the message before it. */
  lemma HandsOutRest(answers: seq<Option<Message>>, n: nat, k: nat, c: Byte, after: seq<Byte>)
    requires n < |answers| && answers[n].Some? && Delivered(answers[..n]) == []
    requires HandsOut(answers[n + 1..], k, answers[n].value, c, after)
    ensures HandsOut(answers, n + 1 + k, [], c, after)
  {
    Joined(answers, n, k);
    if k != 0 {
      Joined(answers, n, k - 1);
      assert n + 1 + (k - 1) == (n + 1 + k) - 1;
    }
  }

  lemma HandsOutBuffered(answers: seq<Option<Message>>, before: seq<Byte>, c: Byte, after: seq<Byte>)
    requires [c] + after == before
    ensures HandsOut(answers, 0, before, c, after)
  {
    assert answers[..0] == [];
  }

  /** The loop around the read system call: it is called again as long as the pipe is empty. */
  method ReadUntilMessage(answers: seq<Option<Message>>) returns (n: nat)
    requires Delivered(answers) != []
    ensures n < |answers| && answers[n].Some? && forall i :: 0 <= i < n ==> answers[i].None?
    ensures Delivered(answers[..n]) == [] && Delivered(answers) == answers[n].value + Delivered(answers[n + 1..])
  {
    n := 0;
    while answers[n].None?
      invariant n < |answers| && Delivered(answers[n..]) == Delivered(answers)
      invariant forall i :: 0 <= i < n ==> answers[i].None?
      decreases |answers| - n
    {
      n := n + 1;
    }
    NothingDelivered(answers[..n]);
  }

  lemma {:induction false} NothingDelivered(answers: seq<Option<Message>>)
    requires forall i :: 0 <= i < |answers| ==> answers[i].None?
    ensures Delivered(answers) == []
  {
    if answers != [] {
      NothingDelivered(answers[1..]);
    }
  }

  /** The stdin buffer of an application (and of the terminal server's own command line). */
  class CharInput {
    const buffer: array<Byte>
    var len: nat
    var index: nat

    ghost predicate Valid()
      reads this
    {
      len <= buffer.Length && (len != 0 ==> index < len)
    }

    /** The bytes read from the pipe but not yet handed out. */
    ghost function Unread(): seq<Byte>
      requires Valid()
      reads this, buffer
    {
      if len == 0 then [] else buffer[index..len]
    }

    constructor (messageSize: nat)
      ensures Valid() && Unread() == [] && buffer.Length == messageSize && fresh(buffer)
    {
      buffer := new Byte[messageSize];
      len, index := 0, 0;
    }

    method Fill(msg: Message)
      requires Valid() && |msg| <= buffer.Length
      modifies this, buffer
      ensures Valid() && Unread() == msg
    {
      forall i | 0 <= i < |msg| {
        buffer[i] := msg[i];
      }
      len, index := |msg|, 0;
    }

    /**
     `rx_char`; `answers` are what the read system call gives in turn, None standing for "pipe empty". The next
     byte in order is handed out, and no message is read while one is still in the buffer.
     */
    method RxChar(answers: seq<Option<Message>>) returns (c: Byte, used: nat)
      requires Valid()
      requires AllFit(answers, buffer.Length)
      requires Unread() == [] ==> Delivered(answers) != []
      modifies this, buffer
      ensures Valid() && HandsOut(answers, used, old(Unread()), c, Unread())
      decreases |answers|
    {
      if len == 0 {
        var n := ReadUntilMessage(answers);
        RestFits(answers, buffer.Length, n);
        Fill(answers[n].value);
        var more;
        c, more := RxChar(answers[n + 1..]);
        used := n + 1 + more;
        HandsOutRest(answers, n, more, c, Unread());
      } else {
        c := HandOut();
        used := 0;
        HandsOutBuffered(answers, old(Unread()), c, Unread());
      }
    }

    /** The next byte of the buffer; with the last one the buffer is used up. */
    method HandOut() returns (c: Byte)
      requires Valid() && Unread() != []
      modifies this
      ensures Valid() && [c] + Unread() == old(Unread())
    {
      c := buffer[index];
      index := index + 1;
      if index == len {
        len := 0;
      }
    }
  }

  // ---------------------------------------------------------------------------------------------
  // The whole path, run by the terminal server, its command line and any number of applications

  type AppId = nat

  /**
   An application: its stdin pipe as a queue, what `rx_char` has not handed out of the message it read last, and
   history: the bytes it has handed out, and those that sessions that are over sent it.
   */
  datatype App = App(queue: seq<Message>, unread: seq<Byte>, returned: seq<Byte>, earlier: seq<Byte>)

  /** The relay's thread: at the test of CLI_MODE, in the read loop, or in the write loop with a cut message. */
  datatype RelayPc = Top | Reading | Writing(buf: Message)

  /** `taken` is history: the bytes that the relay took from stdin in this session. */
  datatype System = System(
    messageSize: nat, capacity: nat, stdin: seq<Message>, cliMode: bool, pc: RelayPc, mux: Option<AppId>,
    apps: map<AppId, App>, taken: seq<Byte>)

  datatype Event =
    | Arrive(msg: Message)     // a driver writes to stdin
    | CliRead                  // the command line's own `rx_char` takes a message
    | Attach(app: AppId)       // the command line's attach command finds the application
    | NotFound                 // or does not
    | Look                     // the relay looks at CLI_MODE
    | RelayRead                // one turn of its read loop
    | RelayWrite               // one turn of its write loop
    | AppRead(app: AppId)      // one turn of the read loop in the application's `rx_char`
    | AppTake(app: AppId, byte: Byte) // `rx_char` hands out this byte

  ghost predicate Enabled(s: System, e: Event) {
    match e
    case Arrive(msg) => 0 < |msg| <= s.messageSize
    case CliRead => s.cliMode && s.pc.Top?
    case Attach(a) => s.cliMode && s.pc.Top? && a in s.apps
    case NotFound => s.cliMode && s.pc.Top?
    case Look => !s.cliMode && s.pc.Top?
    case RelayRead => s.pc.Reading?
    case RelayWrite => s.pc.Writing?
    case AppRead(a) => a in s.apps && s.apps[a].unread == []
    case AppTake(a, c) => a in s.apps && s.apps[a].unread != [] && s.apps[a].unread[0] == c
  }

  /** What a finished session sent goes into the history of its application. */
  function Closed(s: System): System {
    if s.mux.Some? && s.mux.value in s.apps then
      var app := s.apps[s.mux.value];
      s.(apps := s.apps[s.mux.value := app.(earlier := app.earlier + Cut(s.taken))], mux := None, taken := [])
    else
      s.(mux := None, taken := [])
  }

  /** The write system call: no empty message, none longer than the pipe takes, and a full pipe means another turn. */
  function RelayWritten(s: System): System
    requires s.pc.Writing?
  {
    var buf := s.pc.buf;
    if s.mux.None? || s.mux.value !in s.apps || buf == [] || |buf| > s.messageSize then
      s.(pc := Top)
    else
      var app := s.apps[s.mux.value];
      if Answer(app.queue, s.capacity, false, WriteOp(buf)).PipeFull? then s
      else
        var queue := After(app.queue, s.capacity, false, WriteOp(buf));
        s.(pc := Top, apps := s.apps[s.mux.value := app.(queue := queue)])
  }

  function Next(s: System, e: Event): System
    requires Enabled(s, e)
  {
    match e
    case Arrive(msg) => s.(stdin := After(s.stdin, s.capacity, false, WriteOp(msg)))
    case CliRead => s.(stdin := After(s.stdin, s.capacity, false, ReadOp))
    case Attach(a) => Closed(s).(mux := Some(a), cliMode := false)
    case NotFound => Closed(s)
    case Look => s.(pc := Reading)
    case RelayRead =>
      (match Answer(s.stdin, s.capacity, false, ReadOp)
       case Got(msg) =>
         s.(stdin := After(s.stdin, s.capacity, false, ReadOp), pc := Writing(Cut(msg)),
            cliMode := s.cliMode || ETX in msg, taken := s.taken + msg)
       case _ => s)
    case RelayWrite => RelayWritten(s)
    case AppRead(a) =>
      var app := s.apps[a];
      (match Answer(app.queue, s.capacity, false, ReadOp)
       case Got(msg) =>
         s.(apps := s.apps[a := app.(queue := After(app.queue, s.capacity, false, ReadOp), unread := msg)])
       case _ => s)
    case AppTake(a, c) =>
      var app := s.apps[a];
      s.(apps := s.apps[a := app.(unread := app.unread[1..], returned := app.returned + [c])])
  }

  ghost predicate Initial(s: System) {
    && s.capacity > 0 && s.messageSize <= RELAY_BUFFER
    && s.stdin == [] && s.cliMode && s.pc.Top? && s.mux.None? && s.taken == []
    && forall a :: a in s.apps ==> s.apps[a] == App([], [], [], [])
  }

  ghost predicate IsRun(ss: seq<System>, es: seq<Event>) {
    && |ss| == |es| + 1 && Initial(ss[0])
    && forall i :: 0 <= i < |es| ==> Enabled(ss[i], es[i]) && ss[i + 1] == Next(ss[i], es[i])
  }

  // ---------------------------------------------------------------------------------------------

  /** The bytes on the way to an application: in the order in which it gets them. */
  function InFlight(s: System, a: AppId): seq<Byte>
    requires a in s.apps
  {
    s.apps[a].unread + Flat(s.apps[a].queue) + if s.mux == Some(a) && s.pc.Writing? then s.pc.buf else []
  }

  /** The bytes meant for an application: each session's stream, cut at its first ETX. */
  function Meant(s: System, a: AppId): seq<Byte>
    requires a in s.apps
  {
    s.apps[a].earlier + if s.mux == Some(a) then Cut(s.taken) else []
  }

  ghost predicate GoodQueue(q: seq<Message>, s: System) {
    |q| <= s.capacity && forall i :: 0 <= i < |q| ==> 0 < |q[i]| <= s.messageSize
  }

  ghost predicate Sound(s: System) {
    && s.capacity > 0 && s.messageSize <= RELAY_BUFFER
    && GoodQueue(s.stdin, s)
    && (forall a :: a in s.apps ==> GoodQueue(s.apps[a].queue, s))
    && (!s.cliMode ==> s.mux.Some?)
    && (s.mux.Some? ==> (s.cliMode <==> ETX in s.taken))
    && (s.pc.Reading? ==> !s.cliMode)
    && (s.pc.Writing? ==> |s.pc.buf| <= s.messageSize && s.mux.Some?)
    && (s.mux.Some? ==> s.mux.value in s.apps)
    && (forall a :: a in s.apps ==> Streams(s, a))
  }

  ghost predicate Streams(s: System, a: AppId)
    requires a in s.apps
  {
    s.apps[a].returned + InFlight(s, a) == Meant(s, a)
  }

  // ---------------------------------------------------------------------------------------------
  // Every event keeps the stream

  lemma CloseSound(s: System)
    requires Sound(s) && s.pc.Top?
    ensures Sound(Closed(s).(cliMode := true)) && Closed(s).apps.Keys == s.apps.Keys
  {
    var s' := Closed(s).(cliMode := true);
    forall a | a in s'.apps
      ensures Streams(s', a) && GoodQueue(s'.apps[a].queue, s')
    {
      ClosedStream(s, a);
      assert GoodQueue(s.apps[a].queue, s);
    }
    assert GoodQueue(s'.stdin, s');
  }

  lemma ClosedStream(s: System, a: AppId)
    requires s.pc.Top? && a in s.apps && Streams(s, a)
    ensures a in Closed(s).apps && Closed(s).apps[a].queue == s.apps[a].queue && Streams(Closed(s), a)
  {
    if s.mux == Some(a) {
      assert s.apps[a].earlier + Cut(s.taken) + [] == s.apps[a].earlier + Cut(s.taken);
    }
  }

  lemma ReadSound(s: System)
    requires Sound(s) && s.pc.Reading?
    ensures Sound(Next(s, RelayRead))
  {
    var s' := Next(s, RelayRead);
    if s.stdin != [] {
      var msg, taken := s.stdin[0], s.taken;
      CutConcat(taken, msg);
      CutWhole(taken);
      CutIsFirst(msg, Cut(msg));
      forall a | a in s'.apps
        ensures Streams(s', a)
      {
        assert Streams(s, a);
        if s.mux == Some(a) {
          Appended(s.apps[a].returned, s.apps[a].unread + Flat(s.apps[a].queue), s.apps[a].earlier, taken, Cut(msg));
        }
      }
    }
  }

  lemma Appended(r: seq<Byte>, flying: seq<Byte>, e: seq<Byte>, taken: seq<Byte>, more: seq<Byte>)
    requires r + (flying + []) == e + taken
    ensures r + (flying + more) == e + (taken + more)
  {
    assert flying + [] == flying;
    assert r + (flying + more) == (r + flying) + more;
  }

  lemma WriteSound(s: System)
    requires Sound(s) && s.pc.Writing?
    ensures Sound(Next(s, RelayWrite))
  {
    var s' := Next(s, RelayWrite);
    forall a | a in s'.apps
      ensures Streams(s', a) && GoodQueue(s'.apps[a].queue, s)
    {
      assert Streams(s, a);
      if s.mux == Some(a) {
        var app := s.apps[a];
        Queued(app.unread, app.queue, s.pc.buf);
      }
    }
  }

  lemma Queued(unread: seq<Byte>, q: seq<Message>, buf: Message)
    ensures unread + Flat(q) + buf == unread + Flat(q + [buf]) + []
    ensures buf == [] ==> unread + Flat(q) + buf == unread + Flat(q) + []
  {
    FlatSnoc(q, buf);
  }

  /** What keeps the bytes of one application in order keeps everything. */
  lemma AppSound(s: System, b: AppId, app: App)
    requires Sound(s) && b in s.apps && GoodQueue(app.queue, s) && app.earlier == s.apps[b].earlier
    requires app.returned + app.unread + Flat(app.queue)
             == s.apps[b].returned + s.apps[b].unread + Flat(s.apps[b].queue)
    ensures Sound(s.(apps := s.apps[b := app]))
  {
    var s' := s.(apps := s.apps[b := app]);
    forall a | a in s'.apps
      ensures Streams(s', a)
    {
      assert Streams(s, a);
      if a == b {
        var buf := if s.mux == Some(a) && s.pc.Writing? then s.pc.buf else [];
        Regrouped(app.returned, app.unread, Flat(app.queue), buf);
        Regrouped(s.apps[b].returned, s.apps[b].unread, Flat(s.apps[b].queue), buf);
      }
    }
  }

  lemma Regrouped(a: seq<Byte>, b: seq<Byte>, c: seq<Byte>, d: seq<Byte>)
    ensures a + (b + c + d) == (a + b + c) + d
  {
  }

  lemma ReadByAppSound(s: System, b: AppId)
    requires Sound(s) && Enabled(s, AppRead(b))
    ensures Sound(Next(s, AppRead(b)))
  {
    var app := s.apps[b];
    if app.queue != [] {
      Fetched(app.returned, app.queue);
      AppSound(s, b, app.(queue := app.queue[1..], unread := app.queue[0]));
    }
  }

  lemma Fetched(r: seq<Byte>, q: seq<Message>)
    requires q != []
    ensures r + [] + Flat(q) == r + q[0] + Flat(q[1..])
  {
    assert r + [] + (q[0] + Flat(q[1..])) == r + q[0] + Flat(q[1..]);
  }

  lemma TakeByAppSound(s: System, b: AppId, c: Byte)
    requires Sound(s) && Enabled(s, AppTake(b, c))
    ensures Sound(Next(s, AppTake(b, c)))
  {
    var app := s.apps[b];
    Taken(app.returned, app.unread);
    AppSound(s, b, app.(unread := app.unread[1..], returned := app.returned + [c]));
  }

  lemma Taken(r: seq<Byte>, unread: seq<Byte>)
    requires unread != []
    ensures r + unread == (r + [unread[0]]) + unread[1..]
  {
  }

  /** Every event keeps the stream of every application. */
  lemma NextSound(s: System, e: Event)
    requires Sound(s) && Enabled(s, e)
    ensures Sound(Next(s, e))
  {
    match e
    case Attach(a) =>
      CloseSound(s);
      AttachSound(Closed(s).(cliMode := true), a);
    case NotFound => CloseSound(s);
    case RelayRead => ReadSound(s);
    case RelayWrite => WriteSound(s);
    case AppRead(a) => ReadByAppSound(s, a);
    case AppTake(a, c) => TakeByAppSound(s, a, c);
    case _ => StdinSound(s, e);
  }

  lemma StdinSound(s: System, e: Event)
    requires Sound(s) && Enabled(s, e) && (e.Arrive? || e.CliRead? || e.Look?)
    ensures Sound(Next(s, e))
  {
    var s' := Next(s, e);
    assert GoodQueue(s.stdin, s) && GoodQueue(s'.stdin, s');
    forall a | a in s.apps ensures Streams(s', a) && GoodQueue(s'.apps[a].queue, s') {
      assert Streams(s, a) && GoodQueue(s.apps[a].queue, s);
    }
  }

  lemma AttachSound(s: System, a: AppId)
    requires Sound(s) && s.mux.None? && s.pc.Top? && s.taken == [] && a in s.apps
    ensures Sound(s.(mux := Some(a), cliMode := false))
  {
    var s' := s.(mux := Some(a), cliMode := false);
    forall b | b in s'.apps ensures Streams(s', b) {
      assert Streams(s, b);
    }
  }

  lemma {:induction false} AlwaysSound(ss: seq<System>, es: seq<Event>, i: nat)
    requires IsRun(ss, es) && i <= |es|
    ensures Sound(ss[i])
  {
    if i > 0 {
      AlwaysSound(ss, es, i - 1);
      NextSound(ss[i - 1], es[i - 1]);
    } else {
      forall a | a in ss[0].apps ensures Streams(ss[0], a) {
        assert ss[0].apps[a] == App([], [], [], []);
      }
    }
  }
}
