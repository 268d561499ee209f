/** The user WebSocket hub: who is registered, who listens where, and what reaches whom. */
module UserHub {
  import opened Common

  type Client = nat
  type Message = nat

  const SEND_BUFFER: nat := 256

  datatype Hub = Hub(
    clients: set<Client>,
    channels: map<string, set<Client>>,
    buffers: map<Client, seq<Message>>,   // the clients' send channels; absent means empty
    closed: set<Client>,                  // whose send channel has been closed
    dropped: nat)
  {
    function Buffer(c: Client): seq<Message> {
      if c in buffers then buffers[c] else []
    }

    predicate Full(c: Client) {
      |Buffer(c)| >= SEND_BUFFER
    }

    function Targets(channel: string): set<Client> {
      if channel == "" then clients else if channel in channels then channels[channel] else {}
    }

    function Register(c: Client): Hub {
      this.(clients := clients + {c})
    }

    function Unregister(c: Client): Hub {
      if c !in clients then this else
      this.(clients := clients - {c}, closed := closed + {c}, channels := WithoutSubscriber(channels, c))
    }

    function Subscribe(c: Client, channel: string): Hub {
      var subs := if channel in channels then channels[channel] else {};
      this.(channels := channels[channel := subs + {c}])
    }

    function Unsubscribe(c: Client, channel: string): Hub {
      if channel !in channels || c !in channels[channel] then this else
      var subs := channels[channel] - {c};
      this.(channels := if subs == {} then channels - {channel} else channels[channel := subs])
    }

    /** One message to each target with room; the others miss it. */
    function Send(targets: set<Client>, m: Message): Hub {
      this.(buffers := map c | c in buffers.Keys + targets ::
                         if c in targets && !Full(c) then Buffer(c) + [m] else Buffer(c),
            dropped := dropped + |Missing(this, targets)|)
    }
  }

  function WithoutSubscriber(channels: map<string, set<Client>>, c: Client): map<string, set<Client>> {
    map ch | ch in channels && channels[ch] != {c} :: channels[ch] - {c}
  }

  // ---------------------------------------------------------------- requests, and the order they are handled in

  datatype Request =
    | Register(c: Client)
    | Unregister(c: Client)
    | Subscribe(c: Client, channel: string)
    | Unsubscribe(c: Client, channel: string)
  {
    /** Requests of one kind share a queue. */
    predicate SameQueue(other: Request) {
      (Register? && other.Register?) || (Unregister? && other.Unregister?)
      || (Subscribe? && other.Subscribe?) || (Unsubscribe? && other.Unsubscribe?)
    }
  }

  /** A connection: it registers on arrival, and its reader unregisters it once, on the way out. */
  datatype Phase = Live | Gone

  datatype Sys = Sys(
    hub: Hub,
    phase: map<Client, Phase>,
    pending: seq<Request>,   // issued and not yet handled, in issue order
    handled: seq<Request>,
    panicked: bool)

  datatype Move =
    | Issue(r: Request)
    | Handle(i: nat)
    | Event(channel: string, m: Message)
    | Pong(c: Client, m: Message)
    | Drain(c: Client)

  const INIT := Sys(Hub({}, map[], map[], {}, 0), map[], [], [], false)

  predicate MayIssue(s: Sys, r: Request) {
    if r.Register? then r.c !in s.phase else r.c in s.phase && s.phase[r.c] == Live
  }

  /** The hub picks any nonempty queue; each queue is first in, first out. */
  predicate Enabled(s: Sys, mv: Move) {
    && !s.panicked
    && match mv
       case Issue(r) => MayIssue(s, r)
       case Handle(i) => i < |s.pending| && forall j :: 0 <= j < i ==> !s.pending[j].SameQueue(s.pending[i])
       case Event(_, _) => true
       case Pong(c, _) => c in s.phase && s.phase[c] == Live
       case Drain(c) => s.hub.Buffer(c) != []
  }

  function Apply(h: Hub, r: Request): Hub {
    match r
    case Register(c) => h.Register(c)
    case Unregister(c) => h.Unregister(c)
    case Subscribe(c, channel) => h.Subscribe(c, channel)
    case Unsubscribe(c, channel) => h.Unsubscribe(c, channel)
  }

  /** Sending on a closed channel panics. */
  function Next(s: Sys, mv: Move): Sys {
    match mv
    case Issue(r) =>
      s.(pending := s.pending + [r], phase := s.phase[r.c := if r.Unregister? then Gone else Live])
    case Handle(i) =>
      if i >= |s.pending| then s else
      s.(pending := Without(s.pending, i), hub := Apply(s.hub, s.pending[i]), handled := s.handled + [s.pending[i]])
    case Event(channel, m) =>
      s.(hub := s.hub.Send(s.hub.Targets(channel), m), panicked := s.hub.Targets(channel) * s.hub.closed != {})
    case Pong(c, m) =>
      if s.hub.Full(c) then s.(panicked := c in s.hub.closed) else
      s.(hub := s.hub.(buffers := s.hub.buffers[c := s.hub.Buffer(c) + [m]]), panicked := c in s.hub.closed)
    case Drain(c) =>
      if s.hub.Buffer(c) == [] then s else
      s.(hub := s.hub.(buffers := s.hub.buffers[c := s.hub.Buffer(c)[1..]]))
  }

  function After(moves: seq<Move>): Sys {
    if moves == [] then INIT else Next(After(moves[..|moves| - 1]), moves[|moves| - 1])
  }

  predicate Runs(moves: seq<Move>) {
    moves == [] || (Runs(moves[..|moves| - 1]) && Enabled(After(moves[..|moves| - 1]), moves[|moves| - 1]))
  }

  /** The hub handles this client's oldest outstanding request. */
  predicate InOrder(s: Sys, mv: Move) {
    mv.Handle? ==> mv.i < |s.pending| && forall j :: 0 <= j < mv.i ==> s.pending[j].c != s.pending[mv.i].c
  }

  predicate OrderedRun(moves: seq<Move>) {
    moves == [] || (OrderedRun(moves[..|moves| - 1]) && InOrder(After(moves[..|moves| - 1]), moves[|moves| - 1]))
  }

  // ---------------------------------------------------------------- every run

  /** How often the hub has closed a client's send channel: once for each unregistration that found it registered. */
  function Closes(moves: seq<Move>, c: Client): nat {
    if moves == [] then 0 else
    var s := After(moves[..|moves| - 1]);
    var mv := moves[|moves| - 1];
    Closes(moves[..|moves| - 1], c)
    + if mv.Handle? && mv.i < |s.pending| && s.pending[mv.i] == Request.Unregister(c) && c in s.hub.clients then 1
      else 0
  }

  /** Registrations wait for newcomers only, unregistrations for leavers only, and nobody is both in and closed. */
  ghost predicate Consistent(phase: map<Client, Phase>, pending: seq<Request>, clients: set<Client>,
                             closed: set<Client>)
  {
    && (forall i :: 0 <= i < |pending| ==> pending[i].c in phase)
    && (forall i :: 0 <= i < |pending| && pending[i].Register? ==> pending[i].c !in clients && pending[i].c !in closed)
    && (forall i, j :: 0 <= i < j < |pending| && pending[i].Register? && pending[j].Register?
                       ==> pending[i].c != pending[j].c)
    && (forall i :: 0 <= i < |pending| && pending[i].Unregister? ==> phase[pending[i].c] == Gone)
    && clients !! closed
    && clients <= phase.Keys
    && (forall c :: c in closed ==> c in phase && phase[c] == Gone)
  }

  ghost predicate Inv(s: Sys) {
    Consistent(s.phase, s.pending, s.hub.clients, s.hub.closed)
  }

  lemma WithoutAt(pending: seq<Request>, i: nat)
    requires i < |pending|
    ensures |Without(pending, i)| == |pending| - 1
    ensures forall k :: 0 <= k < |pending| - 1 ==> Without(pending, i)[k] == pending[if k < i then k else k + 1]
  {
  }

  lemma HandledStaysConsistent(phase: map<Client, Phase>, pending: seq<Request>, h: Hub, i: nat)
    requires i < |pending| && Consistent(phase, pending, h.clients, h.closed)
    ensures Consistent(phase, Without(pending, i), Apply(h, pending[i]).clients, Apply(h, pending[i]).closed)
  {
    WithoutAt(pending, i);
  }

  lemma IssuedStaysConsistent(s: Sys, r: Request)
    requires Inv(s) && MayIssue(s, r)
    ensures Inv(Next(s, Issue(r)))
  {
  }

  lemma InvStep(s: Sys, mv: Move)
    requires Inv(s) && Enabled(s, mv)
    ensures Inv(Next(s, mv))
  {
    match mv
    case Issue(r) => IssuedStaysConsistent(s, r);
    case Handle(i) => HandledStaysConsistent(s.phase, s.pending, s.hub, i);
    case _ =>
  }

  /** Whatever order the hub takes requests in, a client's send channel is closed at most once, and never while it
      counts as registered. */
  lemma {:induction false} ClosedAtMostOnce(moves: seq<Move>, c: Client)
    requires Runs(moves)
    ensures Inv(After(moves)) && After(moves).hub.clients !! After(moves).hub.closed
    ensures Closes(moves, c) == if c in After(moves).hub.closed then 1 else 0
  {
    if moves != [] {
      ClosedAtMostOnce(moves[..|moves| - 1], c);
      InvStep(After(moves[..|moves| - 1]), moves[|moves| - 1]);
    }
  }

  lemma StepPanicsIff(s: Sys, mv: Move)
    requires s.hub.clients !! s.hub.closed && Enabled(s, mv)
    requires forall c :: c in s.hub.closed ==> c in s.phase && s.phase[c] == Gone
    ensures Next(s, mv).panicked
            <==> mv.Event? && mv.channel != "" && mv.channel in s.hub.channels
                 && exists c :: c in s.hub.channels[mv.channel] && c in s.hub.closed
  {
    if mv.Event? {
      Meeting(s.hub.Targets(mv.channel), s.hub.closed);
      Meeting(s.hub.clients, s.hub.closed);
    }
  }

  lemma Meeting(a: set<Client>, b: set<Client>)
    ensures a * b != {} <==> exists c :: c in a && c in b
  {
    if c :| c in a && c in b {
      assert c in a * b;
    }
  }

  // ---------------------------------------------------------------- which handling endangers a send

  /** A subscription that still waits to be handled and would list the client where events are sent. */
  predicate Waits(s: Sys, j: nat, c: Client) {
    j < |s.pending| && s.pending[j].Subscribe? && s.pending[j].c == c && s.pending[j].channel != ""
  }

  /** The hub does not unregister a client it has while a subscription of that client is still waiting. */
  predicate Prudent(s: Sys, mv: Move) {
    mv.Handle? && mv.i < |s.pending| && s.pending[mv.i].Unregister? && s.pending[mv.i].c in s.hub.clients ==>
      forall j: nat :: j < |s.pending| ==> !Waits(s, j, s.pending[mv.i].c)
  }

  /** Every move from the n-th on is prudent. */
  predicate PrudentSince(moves: seq<Move>, n: nat) {
    |moves| <= n || (PrudentSince(moves[..|moves| - 1], n) && Prudent(After(moves[..|moves| - 1]), moves[|moves| - 1]))
  }

  /** Nobody closed is listed where events are sent, or about to be. */
  ghost predicate Safe(s: Sys) {
    && (forall ch, c: Client :: ch != "" && ch in s.hub.channels && c in s.hub.channels[ch] ==> c !in s.hub.closed)
    && (forall j: nat, c: Client :: Waits(s, j, c) ==> c !in s.hub.closed)
  }

  lemma HandledStaysSafe(s: Sys, i: nat)
    requires Safe(s) && Enabled(s, Handle(i)) && Prudent(s, Handle(i))
    ensures Safe(Next(s, Handle(i)))
  {
    var t, r := Next(s, Handle(i)), s.pending[i];
    WithoutAt(s.pending, i);
    forall j: nat, c: Client | Waits(t, j, c)
      ensures c !in t.hub.closed
    {
      assert Waits(s, if j < i then j else j + 1, c);
    }
    forall ch, c: Client | ch != "" && ch in t.hub.channels && c in t.hub.channels[ch]
      ensures c !in t.hub.closed
    {
      assert Waits(s, i, c) || (ch in s.hub.channels && c in s.hub.channels[ch]);
    }
  }

  lemma SafeStep(s: Sys, mv: Move)
    requires Inv(s) && Safe(s) && Enabled(s, mv) && Prudent(s, mv)
    ensures Safe(Next(s, mv)) && !Next(s, mv).panicked
  {
    StepPanicsIff(s, mv);
    match mv
    case Handle(i) => HandledStaysSafe(s, i);
    case Issue(r) =>
      var t := Next(s, mv);
      forall j: nat, c: Client | Waits(t, j, c)
        ensures c !in t.hub.closed
      {
        assert j < |s.pending| ==> Waits(s, j, c);
      }
    case _ =>
      assert forall j: nat, c: Client :: Waits(Next(s, mv), j, c) ==> Waits(s, j, c);
  }

  /** While every handling is prudent nothing is ever sent on a closed channel, whatever overtakes what. */
  lemma {:induction false} PrudentRunsNeverPanic(moves: seq<Move>)
    requires Runs(moves) && PrudentSince(moves, 0)
    ensures Safe(After(moves)) && !After(moves).panicked
  {
    if moves != [] {
      var front := moves[..|moves| - 1];
      PrudentRunsNeverPanic(front);
      ClosedAtMostOnce(front, 0);
      SafeStep(After(front), moves[|moves| - 1]);
    }
  }

  /** One more move of a continuation that is prudent from the n-th move on. */
  lemma Continue(moves: seq<Move>, n: nat, mv: Move) returns (longer: seq<Move>)
    requires Runs(moves) && PrudentSince(moves, n) && Enabled(After(moves), mv) && Prudent(After(moves), mv)
    ensures longer == moves + [mv] && Runs(longer) && PrudentSince(longer, n)
    ensures After(longer) == Next(After(moves), mv)
  {
    longer := moves + [mv];
    assert longer[..|moves|] == moves;
  }

  predicate FirstSubscription(s: Sys, k: nat) {
    k < |s.pending| && s.pending[k].Subscribe? && forall j :: 0 <= j < k ==> !s.pending[j].Subscribe?
  }

  lemma {:induction false} QueueHasFirst(s: Sys, j: nat) returns (k: nat)
    requires j < |s.pending| && s.pending[j].Subscribe?
    ensures k <= j && FirstSubscription(s, k)
  {
    if i :| 0 <= i < j && s.pending[i].Subscribe? {
      k := QueueHasFirst(s, i);
    } else {
      k := j;
    }
  }

  /** The first subscription in its queue can be handled, and its client is then listed. */
  lemma HandleFirst(moves: seq<Move>, n: nat, k: nat) returns (longer: seq<Move>)
    requires Runs(moves) && PrudentSince(moves, n) && !After(moves).panicked && FirstSubscription(After(moves), k)
    ensures longer == moves + [Handle(k)] && Runs(longer) && PrudentSince(longer, n)
    ensures var s, t := After(moves), After(longer);
            && t.pending == Without(s.pending, k) && t.hub.closed == s.hub.closed && !t.panicked
            && s.pending[k].channel in t.hub.channels && s.pending[k].c in t.hub.channels[s.pending[k].channel]
  {
    longer := Continue(moves, n, Handle(k));
  }

  lemma ListedPanics(moves: seq<Move>, n: nat, ch: string, c: Client) returns (longer: seq<Move>)
    requires Runs(moves) && PrudentSince(moves, n) && !After(moves).panicked
    requires var h := After(moves).hub; ch != "" && ch in h.channels && c in h.channels[ch] && c in h.closed
    ensures longer == moves + [Event(ch, 0)] && Runs(longer) && PrudentSince(longer, n) && After(longer).panicked
  {
    Meeting(After(moves).hub.Targets(ch), After(moves).hub.closed);
    longer := Continue(moves, n, Event(ch, 0));
  }

  /** Emptying the queue of subscriptions as far as a closed client's lists it, and the next event panics. */
  lemma {:induction false} DrainToPanic(moves: seq<Move>, n: nat, j: nat, c: Client) returns (longer: seq<Move>)
    requires Runs(moves) && PrudentSince(moves, n) && !After(moves).panicked
    requires Waits(After(moves), j, c) && c in After(moves).hub.closed
    ensures moves <= longer && Runs(longer) && PrudentSince(longer, n) && After(longer).panicked
    decreases j
  {
    var s := After(moves);
    var k := QueueHasFirst(s, j);
    longer := HandleFirst(moves, n, k);
    if k < j {
      WithoutAt(s.pending, k);
      longer := DrainToPanic(longer, n, j - 1, c);
    } else {
      longer := ListedPanics(longer, n, s.pending[j].channel, c);
    }
  }

  ghost predicate LeadsToPanic(moves: seq<Move>, longer: seq<Move>) {
    moves <= longer && Runs(longer) && PrudentSince(longer, |moves|) && After(longer).panicked
  }

  lemma {:induction false} SafeContinuation(moves: seq<Move>, n: nat)
    requires Runs(moves) && n <= |moves| && PrudentSince(moves, n)
    requires Safe(After(moves[..n])) && !After(moves[..n]).panicked
    ensures Safe(After(moves)) && !After(moves).panicked
  {
    if n < |moves| {
      var front := moves[..|moves| - 1];
      assert front[..n] == moves[..n];
      SafeContinuation(front, n);
      ClosedAtMostOnce(front, 0);
      SafeStep(After(front), moves[|moves| - 1]);
    } else {
      assert moves[..n] == moves;
    }
  }

  lemma PrudentMoveIsSafe(moves: seq<Move>, mv: Move, longer: seq<Move>)
    requires Runs(moves) && PrudentSince(moves, 0) && Enabled(After(moves), mv) && Prudent(After(moves), mv)
    ensures !LeadsToPanic(moves + [mv], longer)
  {
    PrudentRunsNeverPanic(moves);
    ClosedAtMostOnce(moves, 0);
    SafeStep(After(moves), mv);
    var next := Go(moves, mv);
    if next <= longer && Runs(longer) && PrudentSince(longer, |next|) {
      assert longer[..|next|] == next;
      SafeContinuation(longer, |next|);
    }
  }

  lemma ImprudentMoveStrands(s: Sys, i: nat, k: nat, c: Client) returns (j: nat)
    requires Enabled(s, Handle(i)) && s.pending[i] == Request.Unregister(c) && c in s.hub.clients && Waits(s, k, c)
    ensures var t := Next(s, Handle(i)); Waits(t, j, c) && c in t.hub.closed && t.panicked == s.panicked
  {
    WithoutAt(s.pending, i);
    j := if k < i then k else k - 1;
  }

  lemma ImprudentMoveLeadsToPanic(moves: seq<Move>, mv: Move) returns (longer: seq<Move>)
    requires Runs(moves) && Enabled(After(moves), mv) && !Prudent(After(moves), mv)
    ensures LeadsToPanic(moves + [mv], longer)
  {
    var s := After(moves);
    var c := s.pending[mv.i].c;
    var k: nat :| k < |s.pending| && Waits(s, k, c);
    var next := Go(moves, mv);
    var j := ImprudentMoveStrands(s, mv.i, k, c);
    longer := DrainToPanic(next, |next|, j, c);
  }

  /** The condition is exact: after prudent moves, a move can be followed by a send on a closed channel, in a
      continuation that is itself prudent, exactly when it is not prudent. */
  lemma MoveIsSafeIffPrudent(moves: seq<Move>, mv: Move)
    requires Runs(moves) && PrudentSince(moves, 0) && Enabled(After(moves), mv)
    ensures Prudent(After(moves), mv) <==> !exists longer :: LeadsToPanic(moves + [mv], longer)
  {
    if Prudent(After(moves), mv) {
      forall longer
        ensures !LeadsToPanic(moves + [mv], longer)
      {
        PrudentMoveIsSafe(moves, mv, longer);
      }
    } else {
      var longer := ImprudentMoveLeadsToPanic(moves, mv);
    }
  }

  // ---------------------------------------------------------------- runs that keep each client's order

  /** A client's outstanding requests, in issue order. */
  function Of(pending: seq<Request>, c: Client): seq<Request> {
    if pending == [] then
      []
    else
      var rest := Of(pending[1..], c);
      if pending[0].c == c then [pending[0]] + rest else rest
  }

  lemma {:induction false} OfAppend(a: seq<Request>, b: seq<Request>, c: Client)
    ensures Of(a + b, c) == Of(a, c) + Of(b, c)
  {
    if a == [] {
      assert a + b == b;
    } else {
      assert (a + b)[1..] == a[1..] + b;
      OfAppend(a[1..], b, c);
    }
  }

  lemma {:induction false} OfNone(pending: seq<Request>, c: Client)
    requires forall i :: 0 <= i < |pending| ==> pending[i].c != c
    ensures Of(pending, c) == []
  {
    if pending != [] {
      OfNone(pending[1..], c);
    }
  }

  lemma OfWithout(pending: seq<Request>, i: nat, c: Client)
    requires i < |pending| && forall j :: 0 <= j < i ==> pending[j].c != pending[i].c
    ensures pending[i].c != c ==> Of(Without(pending, i), c) == Of(pending, c)
    ensures pending[i].c == c ==> Of(pending, c) == [pending[i]] + Of(Without(pending, i), c)
  {
    assert pending == pending[..i] + ([pending[i]] + pending[i + 1..]);
    OfAppend(pending[..i], [pending[i]] + pending[i + 1..], c);
    OfAppend([pending[i]], pending[i + 1..], c);
    OfAppend(pending[..i], pending[i + 1..], c);
    assert [pending[i]][1..] == [];
    if pending[i].c == c {
      OfNone(pending[..i], c);
    }
  }

  /** What a client may still have outstanding, given whether the hub has it and whether it has left. */
  ghost predicate Script(reqs: seq<Request>, registered: bool, phase: Option<Phase>) {
    && (forall k :: 0 <= k < |reqs| ==> (reqs[k].Register? <==> k == 0 && !registered))
    && (forall k :: 0 <= k < |reqs| ==> (reqs[k].Unregister? <==> k == |reqs| - 1 && phase == Some(Gone)))
    && (phase == None ==> reqs == [] && !registered)
    && (phase == Some(Live) && !registered ==> reqs != [])
    && (phase == Some(Gone) && registered ==> reqs != [])
  }

  function PhaseOf(s: Sys, c: Client): Option<Phase> {
    if c in s.phase then Some(s.phase[c]) else None
  }

  /** The last word about a client's registration, and about its subscription, in the handled requests. */
  predicate Connected(log: seq<Request>, c: Client) {
    log != [] &&
    var r := log[|log| - 1];
    if r == Request.Register(c) then true
    else if r == Request.Unregister(c) then false
    else Connected(log[..|log| - 1], c)
  }

  predicate Listening(log: seq<Request>, c: Client, channel: string) {
    log != [] &&
    var r := log[|log| - 1];
    if r == Request.Subscribe(c, channel) then true
    else if r == Request.Unsubscribe(c, channel) || r == Request.Unregister(c) then false
    else Listening(log[..|log| - 1], c, channel)
  }

  ghost predicate Reflects(h: Hub, log: seq<Request>) {
    && (forall c: Client :: c in h.clients <==> Connected(log, c))
    && (forall ch, c: Client :: ch in h.channels && c in h.channels[ch] <==> Listening(log, c, ch))
  }

  ghost predicate Tidy(h: Hub) {
    && (forall ch :: ch in h.channels ==> h.channels[ch] != {} && h.channels[ch] <= h.clients)
  }

  ghost predicate OrderedInv(s: Sys) {
    && Inv(s)
    && (forall c: Client :: Script(Of(s.pending, c), c in s.hub.clients, PhaseOf(s, c)))
    && Tidy(s.hub)
    && Reflects(s.hub, s.handled)
  }

  lemma ScriptIssued(s: Sys, r: Request, c: Client)
    requires Script(Of(s.pending, c), c in s.hub.clients, PhaseOf(s, c)) && MayIssue(s, r)
    ensures var t := Next(s, Issue(r)); Script(Of(t.pending, c), c in t.hub.clients, PhaseOf(t, c))
  {
    OfAppend(s.pending, [r], c);
    assert [r][1..] == [];
  }

  lemma ScriptAdvances(reqs: seq<Request>, rest: seq<Request>, r: Request, h: Hub, phase: Option<Phase>)
    requires reqs == [r] + rest && Script(reqs, r.c in h.clients, phase)
    ensures Script(rest, r.c in Apply(h, r).clients, phase)
  {
    assert reqs[0] == r && forall k :: 0 <= k < |rest| ==> rest[k] == reqs[k + 1];
  }

  lemma ScriptHandled(s: Sys, i: nat, c: Client)
    requires i < |s.pending| && InOrder(s, Handle(i))
    requires Script(Of(s.pending, c), c in s.hub.clients, PhaseOf(s, c))
    ensures var t := Next(s, Handle(i)); Script(Of(t.pending, c), c in t.hub.clients, PhaseOf(t, c))
  {
    OfWithout(s.pending, i, c);
    if s.pending[i].c == c {
      ScriptAdvances(Of(s.pending, c), Of(Without(s.pending, i), c), s.pending[i], s.hub, PhaseOf(s, c));
    }
  }

  lemma ScriptStep(s: Sys, mv: Move, c: Client)
    requires Script(Of(s.pending, c), c in s.hub.clients, PhaseOf(s, c)) && Enabled(s, mv) && InOrder(s, mv)
    ensures var t := Next(s, mv); Script(Of(t.pending, c), c in t.hub.clients, PhaseOf(t, c))
  {
    match mv
    case Issue(r) => ScriptIssued(s, r, c);
    case Handle(i) => ScriptHandled(s, i, c);
    case _ =>
  }

  /** In order, a subscription is only ever handled for a client the hub has. */
  lemma SubscriberIsRegistered(s: Sys, i: nat)
    requires i < |s.pending| && InOrder(s, Handle(i)) && !s.pending[i].Register?
    requires Script(Of(s.pending, s.pending[i].c), s.pending[i].c in s.hub.clients, PhaseOf(s, s.pending[i].c))
    ensures s.pending[i].c in s.hub.clients
  {
    OfWithout(s.pending, i, s.pending[i].c);
    assert Of(s.pending, s.pending[i].c)[0] == s.pending[i];
  }

  lemma ApplyReflects(h: Hub, log: seq<Request>, r: Request)
    requires Reflects(h, log) && Tidy(h) && (r.Subscribe? ==> r.c in h.clients)
    ensures Reflects(Apply(h, r), log + [r]) && Tidy(Apply(h, r))
  {
    assert (log + [r])[..|log|] == log;
    var t := Apply(h, r);
    forall ch, c: Client
      ensures ch in t.channels && c in t.channels[ch] <==> Listening(log + [r], c, ch)
    {
      assert ch in h.channels && c in h.channels[ch] <==> Listening(log, c, ch);
    }
  }

  lemma OrderedStep(s: Sys, mv: Move)
    requires OrderedInv(s) && Enabled(s, mv) && InOrder(s, mv)
    ensures OrderedInv(Next(s, mv)) && !Next(s, mv).panicked
  {
    InvStep(s, mv);
    forall c: Client
      ensures var t := Next(s, mv); Script(Of(t.pending, c), c in t.hub.clients, PhaseOf(t, c))
    {
      ScriptStep(s, mv, c);
    }
    if mv.Handle? {
      if !s.pending[mv.i].Register? {
        SubscriberIsRegistered(s, mv.i);
      }
      ApplyReflects(s.hub, s.handled, s.pending[mv.i]);
    }
  }

  /** When requests are handled in each client's order: every subscriber is registered, no channel set is empty, nothing
      is sent on a closed channel, and registrations and subscriptions are what the handled requests last said. */
  lemma {:induction false} OrderedRunsAreTidy(moves: seq<Move>)
    requires Runs(moves) && OrderedRun(moves)
    ensures var s := After(moves); OrderedInv(s) && !s.panicked
  {
    if moves != [] {
      OrderedRunsAreTidy(moves[..|moves| - 1]);
      OrderedStep(After(moves[..|moves| - 1]), moves[|moves| - 1]);
    }
  }

  lemma {:induction false} OfHas(pending: seq<Request>, j: nat)
    requires j < |pending|
    ensures Of(pending, pending[j].c) != []
  {
    if j > 0 {
      OfHas(pending[1..], j - 1);
    }
  }

  /** In order, an unregistration is its client's last outstanding request, so it overtakes nothing. */
  lemma InOrderIsPrudent(s: Sys, i: nat)
    requires i < |s.pending| && InOrder(s, Handle(i)) && s.pending[i].Unregister?
    requires Script(Of(s.pending, s.pending[i].c), s.pending[i].c in s.hub.clients, PhaseOf(s, s.pending[i].c))
    ensures Prudent(s, Handle(i))
  {
    var c := s.pending[i].c;
    var rest := Without(s.pending, i);
    OfWithout(s.pending, i, c);
    assert Of(s.pending, c)[0] == s.pending[i];
    assert Of(rest, c) == [];
    WithoutAt(s.pending, i);
    forall j: nat | j < |s.pending|
      ensures !Waits(s, j, c)
    {
      if Waits(s, j, c) {
        OfHas(rest, if j < i then j else j - 1);
      }
    }
  }

  /** Runs that keep each client's order are prudent. */
  lemma {:induction false} OrderedRunsArePrudent(moves: seq<Move>)
    requires Runs(moves) && OrderedRun(moves)
    ensures PrudentSince(moves, 0)
  {
    if moves != [] {
      var front, mv := moves[..|moves| - 1], moves[|moves| - 1];
      OrderedRunsArePrudent(front);
      OrderedRunsAreTidy(front);
      if mv.Handle? && After(front).pending[mv.i].Unregister? {
        InOrderIsPrudent(After(front), mv.i);
      }
    }
  }

  // ---------------------------------------------------------------- any order: registrations, and when sets go untidy

  lemma ApplyConnects(h: Hub, log: seq<Request>, r: Request, c: Client)
    requires c in h.clients <==> Connected(log, c)
    ensures c in Apply(h, r).clients <==> Connected(log + [r], c)
  {
    assert (log + [r])[..|log|] == log;
  }

  /** Whatever overtakes what, the hub has exactly the clients the handled requests last said it has. */
  lemma {:induction false} RegistrationsAreTheLog(moves: seq<Move>, c: Client)
    requires Runs(moves)
    ensures c in After(moves).hub.clients <==> Connected(After(moves).handled, c)
  {
    if moves != [] {
      var s, mv := After(moves[..|moves| - 1]), moves[|moves| - 1];
      RegistrationsAreTheLog(moves[..|moves| - 1], c);
      if mv.Handle? {
        ApplyConnects(s.hub, s.handled, s.pending[mv.i], c);
      }
    }
  }

  /** No subscription is handled for a client the hub does not have. */
  predicate SubscriberKnown(s: Sys, mv: Move) {
    mv.Handle? && mv.i < |s.pending| && s.pending[mv.i].Subscribe? ==> s.pending[mv.i].c in s.hub.clients
  }

  predicate EverySubscriberKnown(moves: seq<Move>) {
    moves == [] ||
    (EverySubscriberKnown(moves[..|moves| - 1]) && SubscriberKnown(After(moves[..|moves| - 1]), moves[|moves| - 1]))
  }

  ghost predicate TidyThroughout(moves: seq<Move>) {
    Tidy(After(moves).hub) && (moves != [] ==> TidyThroughout(moves[..|moves| - 1]))
  }

  lemma ApplyTidyIff(h: Hub, r: Request)
    requires Tidy(h)
    ensures Tidy(Apply(h, r)) <==> (r.Subscribe? ==> r.c in h.clients)
  {
    var t := Apply(h, r);
    if r.Subscribe? {
      assert r.channel in t.channels && r.c in t.channels[r.channel];
    }
  }

  lemma TidyStepIff(s: Sys, mv: Move)
    requires Tidy(s.hub) && Enabled(s, mv)
    ensures Tidy(Next(s, mv).hub) <==> SubscriberKnown(s, mv)
  {
    if mv.Handle? {
      ApplyTidyIff(s.hub, s.pending[mv.i]);
    }
  }

  lemma ReflectsStep(s: Sys, mv: Move)
    requires Tidy(s.hub) && Reflects(s.hub, s.handled) && Enabled(s, mv) && SubscriberKnown(s, mv)
    ensures Reflects(Next(s, mv).hub, Next(s, mv).handled)
  {
    if mv.Handle? {
      ApplyReflects(s.hub, s.handled, s.pending[mv.i]);
    }
  }

  lemma TidyHubDoesNotPanic(s: Sys, mv: Move)
    requires Inv(s) && Tidy(s.hub) && Enabled(s, mv)
    ensures !Next(s, mv).panicked
  {
    StepPanicsIff(s, mv);
  }

  /** At every moment of a run all subscribers are registered and no channel set is empty, exactly when every
      subscription handled was that of a client the hub had. As long as that lasts nothing is sent on a closed channel,
      and both maps are what the handled requests last said. */
  lemma {:induction false} TidinessIsKeptIff(moves: seq<Move>)
    requires Runs(moves)
    ensures TidyThroughout(moves) <==> EverySubscriberKnown(moves)
    ensures TidyThroughout(moves) ==> Reflects(After(moves).hub, After(moves).handled) && !After(moves).panicked
  {
    if moves != [] {
      var front, mv := moves[..|moves| - 1], moves[|moves| - 1];
      TidinessIsKeptIff(front);
      if TidyThroughout(front) {
        TidyStepIff(After(front), mv);
        if SubscriberKnown(After(front), mv) {
          ReflectsStep(After(front), mv);
          ClosedAtMostOnce(front, 0);
          TidyHubDoesNotPanic(After(front), mv);
        }
      }
    }
  }

  /** Runs that keep each client's order are among them. */
  lemma {:induction false} OrderedRunsKnowTheirSubscribers(moves: seq<Move>)
    requires Runs(moves) && OrderedRun(moves)
    ensures EverySubscriberKnown(moves)
  {
    if moves != [] {
      var s, mv := After(moves[..|moves| - 1]), moves[|moves| - 1];
      OrderedRunsKnowTheirSubscribers(moves[..|moves| - 1]);
      OrderedRunsAreTidy(moves[..|moves| - 1]);
      if mv.Handle? && s.pending[mv.i].Subscribe? {
        SubscriberIsRegistered(s, mv.i);
      }
    }
  }

  // ---------------------------------------------------------------- any order: clients that are never let go

  /** How often a request has been issued, handled or not. */
  function Issued(s: Sys, r: Request): nat {
    multiset(s.pending)[r] + multiset(s.handled)[r]
  }

  ghost predicate IssuedOnce(s: Sys, c: Client) {
    && Issued(s, Request.Register(c)) == (if c in s.phase then 1 else 0)
    && Issued(s, Request.Unregister(c)) == (if PhaseOf(s, c) == Some(Gone) then 1 else 0)
  }

  lemma HandledIsStillIssued(s: Sys, i: nat, r: Request)
    requires i < |s.pending|
    ensures Issued(Next(s, Handle(i)), r) == Issued(s, r)
  {
    var rest := Without(s.pending, i);
    assert s.pending == s.pending[..i] + [s.pending[i]] + s.pending[i + 1..];
    assert multiset(s.pending) == multiset(rest) + multiset{s.pending[i]};
  }

  lemma IssuedOnceStep(s: Sys, mv: Move, c: Client)
    requires IssuedOnce(s, c) && Enabled(s, mv)
    ensures IssuedOnce(Next(s, mv), c)
  {
    if mv.Handle? {
      HandledIsStillIssued(s, mv.i, Request.Register(c));
      HandledIsStillIssued(s, mv.i, Request.Unregister(c));
    }
  }

  lemma {:induction false} EachClientIsIssuedOnce(moves: seq<Move>, c: Client)
    requires Runs(moves)
    ensures IssuedOnce(After(moves), c)
  {
    if moves != [] {
      EachClientIsIssuedOnce(moves[..|moves| - 1], c);
      IssuedOnceStep(After(moves[..|moves| - 1]), moves[|moves| - 1], c);
    }
  }

  /** The unregistration was handled before the registration. */
  predicate Overtook(log: seq<Request>, c: Client) {
    exists i, j :: 0 <= i < j < |log| && log[i] == Request.Unregister(c) && log[j] == Request.Register(c)
  }

  lemma OvertookLast(log: seq<Request>, c: Client)
    requires log != [] && multiset(log)[Request.Unregister(c)] == 1
    requires log[|log| - 1].Register? || log[|log| - 1].Unregister?
    requires log[|log| - 1].c == c
    ensures Overtook(log, c) <==> log[|log| - 1].Register?
  {
    var n := |log| - 1;
    assert log == log[..n] + [log[n]];
    if log[n].Register? {
      assert Request.Unregister(c) in log[..n];
      var i :| 0 <= i < n && log[i] == Request.Unregister(c);
      assert log[n] == Request.Register(c);
    } else {
      assert Request.Unregister(c) !in log[..n];
      assert forall i :: 0 <= i < n ==> log[i] == log[..n][i];
    }
  }

  lemma OvertookEarlier(log: seq<Request>, c: Client)
    requires log != [] && log[|log| - 1] != Request.Register(c) && log[|log| - 1] != Request.Unregister(c)
    ensures Overtook(log, c) <==> Overtook(log[..|log| - 1], c)
  {
    var front := log[..|log| - 1];
    assert forall i :: 0 <= i < |front| ==> front[i] == log[i];
    if Overtook(log, c) {
      var i, j :| 0 <= i < j < |log| && log[i] == Request.Unregister(c) && log[j] == Request.Register(c);
      assert j < |front| && front[i] == log[i] && front[j] == log[j];
    }
  }

  lemma {:induction false} ConnectedIffOvertook(log: seq<Request>, c: Client)
    requires multiset(log)[Request.Register(c)] == 1 && multiset(log)[Request.Unregister(c)] == 1
    ensures Connected(log, c) <==> Overtook(log, c)
  {
    assert log != [];
    var last, front := log[|log| - 1], log[..|log| - 1];
    assert log == front + [last];
    if last == Request.Register(c) || last == Request.Unregister(c) {
      OvertookLast(log, c);
    } else {
      ConnectedIffOvertook(front, c);
      OvertookEarlier(log, c);
    }
  }

  /** The client has gone and nothing of it is outstanding. */
  predicate Departed(s: Sys, c: Client) {
    PhaseOf(s, c) == Some(Gone) && forall i :: 0 <= i < |s.pending| ==> s.pending[i].c != c
  }

  lemma DepartedIsHandled(s: Sys, c: Client)
    requires IssuedOnce(s, c) && Departed(s, c)
    ensures multiset(s.handled)[Request.Register(c)] == 1 && multiset(s.handled)[Request.Unregister(c)] == 1
  {
    assert Request.Register(c) !in s.pending && Request.Unregister(c) !in s.pending;
  }

  lemma DepartedStep(s: Sys, mv: Move, c: Client)
    requires Departed(s, c) && Enabled(s, mv)
    ensures Departed(Next(s, mv), c) && (c in Next(s, mv).hub.clients <==> c in s.hub.clients)
  {
    if mv.Handle? {
      WithoutAt(s.pending, mv.i);
    }
  }

  lemma {:induction false} DepartedForGood(moves: seq<Move>, longer: seq<Move>, c: Client)
    requires Runs(longer) && moves <= longer && Departed(After(moves), c)
    ensures Departed(After(longer), c) && (c in After(longer).hub.clients <==> c in After(moves).hub.clients)
  {
    if moves != longer {
      var front := longer[..|longer| - 1];
      DepartedForGood(moves, front, c);
      DepartedStep(After(front), longer[|longer| - 1], c);
    }
  }

  lemma {:induction false} RunsBefore(moves: seq<Move>, longer: seq<Move>)
    requires Runs(longer) && moves <= longer
    ensures Runs(moves)
  {
    if moves != longer {
      RunsBefore(moves, longer[..|longer| - 1]);
    }
  }

  /** A client that has gone, with nothing outstanding, is still registered, then and in every continuation, exactly
      when its unregistration was handled before its registration. */
  lemma DepartedClientStaysIff(moves: seq<Move>, longer: seq<Move>, c: Client)
    requires Runs(longer) && moves <= longer && Departed(After(moves), c)
    ensures c in After(longer).hub.clients <==> Overtook(After(moves).handled, c)
  {
    RunsBefore(moves, longer);
    DepartedForGood(moves, longer, c);
    EachClientIsIssuedOnce(moves, c);
    DepartedIsHandled(After(moves), c);
    RegistrationsAreTheLog(moves, c);
    ConnectedIffOvertook(After(moves).handled, c);
  }

  /** Such a run: the client leaves before the hub has looked at its registration. */
  lemma RegistrationIsOvertaken() returns (moves: seq<Move>)
    ensures Runs(moves) && |moves| == 4 && Departed(After(moves), 1) && 1 in After(moves).hub.clients
  {
    var r, u := Request.Register(1), Request.Unregister(1);
    moves := Go([], Issue(r));
    moves := Go(moves, Issue(u));
    assert After(moves) == Sys(INIT.hub, map[1 := Gone], [r, u], [], false);
    moves := Go(moves, Handle(1));
    assert Without([r, u], 1) == [r];
    assert After(moves) == Sys(INIT.hub, map[1 := Gone], [r], [u], false);
    moves := Go(moves, Handle(0));
  }

  // ---------------------------------------------------------------- events

  /** Whom an event goes to, in the words of the history. */
  ghost predicate Selected(log: seq<Request>, channel: string, c: Client) {
    if channel == "" then Connected(log, c) else Listening(log, c, channel)
  }

  function Missing(h: Hub, targets: set<Client>): set<Client> {
    set c | c in targets && h.Full(c)
  }

  /** One message went to each target with room, behind what was there; the others are counted. */
  ghost predicate Sent(before: Hub, after: Hub, targets: set<Client>, m: Message) {
    && (forall c: Client ::
          after.Buffer(c) == if c in targets && !before.Full(c) then before.Buffer(c) + [m] else before.Buffer(c))
    && after.dropped == before.dropped + |Missing(before, targets)|
  }

  lemma SendIsSent(h: Hub, targets: set<Client>, m: Message)
    ensures Sent(h, h.Send(targets, m), targets, m)
  {
  }

  lemma SentOrMissed(before: Hub, after: Hub, targets: set<Client>, m: Message)
    requires Sent(before, after, targets, m)
    ensures |set c | c in targets && after.Buffer(c) != before.Buffer(c)| + (after.dropped - before.dropped)
            == |targets|
  {
    var missing := Missing(before, targets);
    forall c: Client
      ensures c in targets && after.Buffer(c) != before.Buffer(c) <==> c in targets - missing
    {
      assert |before.Buffer(c) + [m]| != |before.Buffer(c)|;
    }
    assert (set c | c in targets && after.Buffer(c) != before.Buffer(c)) == targets - missing;
  }

  /** The hub never refuses: unless it has panicked, events may come, a live client may send its requests and pongs, a
      client with messages may take one, and the oldest outstanding request may be handled. */
  lemma NothingIsRefused(s: Sys, c: Client, channel: string, m: Message)
    requires !s.panicked
    ensures Enabled(s, Event(channel, m)) && (c !in s.phase ==> Enabled(s, Issue(Request.Register(c))))
    ensures c in s.phase && s.phase[c] == Live ==>
              && Enabled(s, Pong(c, m)) && Enabled(s, Issue(Request.Unregister(c)))
              && Enabled(s, Issue(Request.Subscribe(c, channel))) && Enabled(s, Issue(Request.Unsubscribe(c, channel)))
    ensures s.hub.Buffer(c) != [] ==> Enabled(s, Drain(c))
    ensures s.pending != [] ==> Enabled(s, Handle(0))
  {
  }

  /** From s to t the n oldest requests were handled, in order. */
  ghost predicate WorkedOff(s: Sys, t: Sys, n: nat) {
    && n <= |s.pending| && t.pending == s.pending[n..] && t.handled == s.handled + s.pending[..n]
    && t.panicked == s.panicked
  }

  lemma OldestIsHandled(s: Sys)
    requires s.pending != []
    ensures WorkedOff(s, Next(s, Handle(0)), 1)
  {
    assert Without(s.pending, 0) == s.pending[1..];
  }

  lemma OneMoreWorkedOff(s: Sys, t: Sys, u: Sys, n: nat)
    requires WorkedOff(s, t, n) && WorkedOff(t, u, 1)
    ensures WorkedOff(s, u, n + 1)
  {
    var pending := s.pending;
    assert pending[n..][1..] == pending[n + 1..] && pending[..n] + pending[n..][..1] == pending[..n + 1];
  }

  /** So nothing stays outstanding: from any run the hub can work off all requests, the oldest first. */
  lemma {:induction false} RequestsCanBeWorkedOff(moves: seq<Move>, n: nat) returns (longer: seq<Move>)
    requires Runs(moves) && !After(moves).panicked && n <= |After(moves).pending|
    ensures moves <= longer && |longer| == |moves| + n && Runs(longer)
    ensures WorkedOff(After(moves), After(longer), n)
  {
    if n == 0 {
      longer := moves;
    } else {
      var before := RequestsCanBeWorkedOff(moves, n - 1);
      OldestIsHandled(After(before));
      longer := Go(before, Handle(0));
      OneMoreWorkedOff(After(moves), After(before), After(longer), n - 1);
    }
  }

  lemma BufferStep(s: Sys, mv: Move, c: Client)
    requires Enabled(s, mv) && |s.hub.Buffer(c)| <= 256
    ensures |Next(s, mv).hub.Buffer(c)| <= 256
    ensures mv.Pong? && |s.hub.Buffer(mv.c)| < 256 ==> Next(s, mv).hub.Buffer(mv.c) == s.hub.Buffer(mv.c) + [mv.m]
    ensures mv.Drain? ==> [s.hub.Buffer(mv.c)[0]] + Next(s, mv).hub.Buffer(mv.c) == s.hub.Buffer(mv.c)
  {
    if mv.Event? {
      SendIsSent(s.hub, s.hub.Targets(mv.channel), mv.m);
    }
  }

  /** In every run no send channel ever holds more than its 256 messages. */
  lemma {:induction false} BuffersAreBounded(moves: seq<Move>, c: Client)
    requires Runs(moves)
    ensures |After(moves).hub.Buffer(c)| <= 256
  {
    if moves != [] {
      BuffersAreBounded(moves[..|moves| - 1], c);
      BufferStep(After(moves[..|moves| - 1]), moves[|moves| - 1], c);
    }
  }

  lemma TargetsAreSelected(s: Sys, channel: string, c: Client)
    requires Reflects(s.hub, s.handled)
    ensures c in s.hub.Targets(channel) <==> Selected(s.handled, channel, c)
  {
  }

  /** After the event exactly the selected clients with room have one message more, last in line; every other selected
      client is counted as a drop, so deliveries and drops add up to the targets. */
  ghost predicate Reached(s: Sys, t: Sys, channel: string, m: Message) {
    var targets := s.hub.Targets(channel);
    && (forall c: Client :: c in targets <==> Selected(s.handled, channel, c))
    && (forall c: Client ::
          t.hub.Buffer(c) == if Selected(s.handled, channel, c) && |s.hub.Buffer(c)| < 256 then s.hub.Buffer(c) + [m]
                             else s.hub.Buffer(c))
    && |set c | c in targets && t.hub.Buffer(c) != s.hub.Buffer(c)| + (t.hub.dropped - s.hub.dropped) == |targets|
  }

  /** As long as every subscriber is known, an event reaches exactly the clients that the history selects. */
  lemma EventReachesTheSelected(moves: seq<Move>, channel: string, m: Message)
    requires Runs(moves) && EverySubscriberKnown(moves)
    ensures var s := After(moves);
            var t := Next(s, Event(channel, m));
            !t.panicked && Reached(s, t, channel, m)
  {
    TidinessIsKeptIff(moves);
    ClosedAtMostOnce(moves, 0);
    TidyHubDoesNotPanic(After(moves), Event(channel, m));
    EventReachesFrom(After(moves), channel, m);
  }

  lemma EventReachesFrom(s: Sys, channel: string, m: Message)
    requires Reflects(s.hub, s.handled)
    ensures Reached(s, Next(s, Event(channel, m)), channel, m)
  {
    SendIsSent(s.hub, s.hub.Targets(channel), m);
    SentOrMissed(s.hub, Next(s, Event(channel, m)).hub, s.hub.Targets(channel), m);
    forall c: Client
      ensures c in s.hub.Targets(channel) <==> Selected(s.handled, channel, c)
    {
      TargetsAreSelected(s, channel, c);
    }
  }

  /** Out of order: the unregistration overtakes a subscription. */
  lemma OvertakenSubscription() returns (moves: seq<Move>)
    ensures Runs(moves) && |moves| == 5
    ensures After(moves) == Sys(Hub({}, map[], map[], {1}, 0), map[1 := Gone], [Request.Subscribe(1, "logs")],
                                [Request.Register(1), Request.Unregister(1)], false)
  {
    var r, u, b := Request.Register(1), Request.Unregister(1), Request.Subscribe(1, "logs");
    moves := Go([], Issue(r));
    moves := Go(moves, Handle(0));
    assert After(moves) == Sys(Hub({1}, map[], map[], {}, 0), map[1 := Live], [], [r], false);
    moves := Go(moves, Issue(b));
    moves := Go(moves, Issue(u));
    assert After(moves) == Sys(Hub({1}, map[], map[], {}, 0), map[1 := Gone], [b, u], [r], false);
    moves := Go(moves, Handle(1));
    assert WithoutSubscriber(map[], 1) == map[];
    assert Without([b, u], 1) == [b];
  }

  /** The next event on that channel panics. */
  lemma OvertakenSubscriptionPanics() returns (moves: seq<Move>)
    ensures Runs(moves) && After(moves).panicked
    ensures !OrderedRun(moves) && |moves| == 7
  {
    moves := OvertakenSubscription();
    var late, hub := Request.Subscribe(1, "logs"), After(moves).hub;
    assert After(moves).pending[0] == late && hub.channels == map[];
    moves := Go(moves, Handle(0));
    assert After(moves).hub == Apply(hub, late) && "logs" in hub.Subscribe(1, "logs").channels;
    moves := Go(moves, Event("logs", 0));
    assert 1 in After(moves[..6]).hub.Targets("logs") * After(moves[..6]).hub.closed;
    OrderedPanicIsImpossible(moves);
  }

  lemma OrderedPanicIsImpossible(moves: seq<Move>)
    requires Runs(moves) && After(moves).panicked
    ensures !OrderedRun(moves)
  {
    if OrderedRun(moves) {
      OrderedRunsAreTidy(moves);
    }
  }

  lemma Go(moves: seq<Move>, mv: Move) returns (longer: seq<Move>)
    requires Runs(moves) && Enabled(After(moves), mv)
    ensures longer == moves + [mv] && Runs(longer) && After(longer) == Next(After(moves), mv)
  {
    longer := moves + [mv];
    assert longer[..|moves|] == moves;
  }

  // ---------------------------------------------------------------- the hub as an object

  /** Leaves every channel, and drops the channels it was alone in. */
  method DropSubscriber(was: map<string, set<Client>>, c: Client) returns (channels: map<string, set<Client>>)
    ensures channels == WithoutSubscriber(was, c)
  {
    channels := was;
    var left := was.Keys;
    while left != {}
      invariant left <= was.Keys
      invariant channels == map ch | ch in was && (ch in left || was[ch] != {c}) ::
                              if ch in left then was[ch] else was[ch] - {c}
      decreases left
    {
      var ch :| ch in left;
      assert c !in was[ch] ==> was[ch] - {c} == was[ch];
      assert c in was[ch] ==> was[ch] == {c} + (was[ch] - {c});
      if c in channels[ch] {
        var subs := channels[ch] - {c};
        channels := if subs == {} then channels - {ch} else channels[ch := subs];
      }
      left := left - {ch};
    }
  }

  class HubObject {
    var clients: set<Client>
    var channels: map<string, set<Client>>
    var buffers: map<Client, seq<Message>>
    var closed: set<Client>
    var dropped: nat

    ghost function Value(): Hub
      reads this
    {
      Hub(clients, channels, buffers, closed, dropped)
    }

    constructor ()
      ensures Value() == INIT.hub
    {
      clients, channels, buffers, closed, dropped := {}, map[], map[], {}, 0;
    }

    method Register(c: Client)
      modifies this
      ensures Value() == old(Value()).Register(c)
    {
      clients := clients + {c};
    }

    method Unregister(c: Client)
      modifies this
      ensures Value() == old(Value()).Unregister(c)
    {
      if c !in clients {
        return;
      }
      clients := clients - {c};
      closed := closed + {c};
      channels := DropSubscriber(channels, c);
    }

    method Subscribe(c: Client, channel: string)
      modifies this`channels
      ensures Value() == old(Value()).Subscribe(c, channel)
    {
      if channel !in channels {
        channels := channels[channel := {}];
      }
      channels := channels[channel := channels[channel] + {c}];
    }

    method Unsubscribe(c: Client, channel: string)
      modifies this`channels
      ensures Value() == old(Value()).Unsubscribe(c, channel)
    {
      if channel in channels && c in channels[channel] {
        var subs := channels[channel] - {c};
        channels := if subs == {} then channels - {channel} else channels[channel := subs];
      }
    }

    /** The non-blocking sends, one target after the other. */
    method SendAll(targets: set<Client>, m: Message)
      requires targets !! closed
      modifies this`buffers, this`dropped
      ensures Sent(old(Value()), Value(), targets, m)
    {
      ghost var before := Value();
      var left := targets;
      ghost var missed: set<Client> := {};
      while left != {}
        invariant left <= targets && missed == Missing(before, targets - left)
        invariant forall c: Client ::
          Value().Buffer(c) == if c in targets - left && !before.Full(c) then before.Buffer(c) + [m]
                               else before.Buffer(c)
        invariant dropped == before.dropped + |missed|
        decreases left
      {
        var c :| c in left;
        var buffer := if c in buffers then buffers[c] else [];
        assert buffer == before.Buffer(c);
        if |buffer| < SEND_BUFFER {
          buffers := buffers[c := buffer + [m]];
        } else {
          missed := missed + {c};
          dropped := dropped + 1;
        }
        left := left - {c};
      }
      assert targets - left == targets;
    }

    /** An event that cannot be marshalled goes nowhere. */
    method HandleEvent(channel: string, m: Message, marshals: bool)
      requires Value().Targets(channel) !! closed
      modifies this`buffers, this`dropped
      ensures !marshals ==> Value() == old(Value())
      ensures marshals ==> Sent(old(Value()), Value(), old(Value()).Targets(channel), m)
    {
      if !marshals {
        return;
      }
      var targets := clients;
      if channel != "" {
        if channel !in channels {
          return;
        }
        targets := channels[channel];
      }
      SendAll(targets, m);
    }
  }
}
