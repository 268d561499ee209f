/** The notifier's bounded queue: publishers that drop the oldest payload when it is full, and one consumer.

  A publisher's enqueue is up to three separate channel operations; anything may run between them.
*/
module Webhook {
  import opened Common

  type Payload = nat

  const CAPACITY: nat := 64

  /** Where a publisher's enqueue stands. */
  datatype Publisher =
    | Idle
    | Trying(p: Payload)    // about to send if there is room
    | Evicting(p: Payload)  // found the queue full, about to receive the oldest
    | Retrying(p: Payload)  // about to send if there is room, for the last time

  /** A payload that left the queue: to the consumer, or dropped as the oldest. */
  datatype Exit = Exit(p: Payload, taken: bool)

  datatype State = State(
    queue: seq<Payload>,
    publishers: seq<Publisher>,
    offered: seq<Payload>,   // every payload handed to an enqueue, in order
    sent: seq<Payload>,      // every payload that entered the queue, in order
    exits: seq<Exit>,
    refused: seq<Payload>)   // dropped without ever entering

  datatype Move =
    | Offer(w: nat, p: Payload)
    | Proceed(w: nat)
    | Take

  function Init(publishers: nat): State {
    State([], seq(publishers, _ => Idle), [], [], [], [])
  }

  predicate Enabled(s: State, mv: Move) {
    match mv
    case Offer(w, _) => w < |s.publishers| && s.publishers[w].Idle?
    case Proceed(w) => w < |s.publishers| && !s.publishers[w].Idle?
    case Take => s.queue != []
  }

  function Enqueue(s: State, w: nat, p: Payload): State
    requires w < |s.publishers|
  {
    s.(queue := s.queue + [p], sent := s.sent + [p], publishers := s.publishers[w := Idle])
  }

  function Dequeue(s: State, taken: bool): State
    requires s.queue != []
  {
    s.(queue := s.queue[1..], exits := s.exits + [Exit(s.queue[0], taken)])
  }

  function Next(s: State, mv: Move): State
    requires Enabled(s, mv)
  {
    match mv
    case Offer(w, p) => s.(offered := s.offered + [p], publishers := s.publishers[w := Trying(p)])
    case Take => Dequeue(s, true)
    case Proceed(w) =>
      match s.publishers[w]
      case Trying(p) =>
        if |s.queue| < CAPACITY then Enqueue(s, w, p) else s.(publishers := s.publishers[w := Evicting(p)])
      case Evicting(p) =>
        var s := s.(publishers := s.publishers[w := Retrying(p)]);
        if s.queue != [] then Dequeue(s, false) else s
      case Retrying(p) =>
        if |s.queue| < CAPACITY then Enqueue(s, w, p)
        else s.(publishers := s.publishers[w := Idle], refused := s.refused + [p])
      case Idle => s
  }

  function After(s: State, moves: seq<Move>): State {
    if moves == [] then
      s
    else
      var before := After(s, moves[..|moves| - 1]);
      if Enabled(before, moves[|moves| - 1]) then Next(before, moves[|moves| - 1]) else before
  }

  predicate Runs(s: State, moves: seq<Move>) {
    moves == [] || (Runs(s, moves[..|moves| - 1]) && Enabled(After(s, moves[..|moves| - 1]), moves[|moves| - 1]))
  }

  // ---------------------------------------------------------------- where every payload is

  function Holding(w: Publisher): multiset<Payload> {
    if w.Idle? then multiset{} else multiset{w.p}
  }

  function Held(publishers: seq<Publisher>): multiset<Payload> {
    if publishers == [] then multiset{}
    else Held(publishers[..|publishers| - 1]) + Holding(publishers[|publishers| - 1])
  }

  function Payloads(exits: seq<Exit>): seq<Payload> {
    if exits == [] then [] else Payloads(exits[..|exits| - 1]) + [exits[|exits| - 1].p]
  }

  /** The payloads that left one way, in order. */
  function Leaving(exits: seq<Exit>, taken: bool): seq<Payload> {
    if exits == [] then
      []
    else
      var rest := Leaving(exits[..|exits| - 1], taken);
      if exits[|exits| - 1].taken == taken then rest + [exits[|exits| - 1].p] else rest
  }

  predicate Subsequence(a: seq<Payload>, b: seq<Payload>) {
    a == [] ||
    (b != [] &&
     ((a[|a| - 1] == b[|b| - 1] && Subsequence(a[..|a| - 1], b[..|b| - 1])) || Subsequence(a, b[..|b| - 1])))
  }

  ghost predicate Inv(s: State) {
    && |s.queue| <= CAPACITY
    && s.sent == Payloads(s.exits) + s.queue
    && multiset(s.offered) == multiset(s.sent) + multiset(s.refused) + Held(s.publishers)
  }

  lemma {:induction false} HeldUpdate(publishers: seq<Publisher>, w: nat, p: Publisher)
    requires w < |publishers|
    ensures Held(publishers[w := p]) + Holding(publishers[w]) == Held(publishers) + Holding(p)
  {
    var n := |publishers| - 1;
    if w < n {
      HeldUpdate(publishers[..n], w, p);
      assert publishers[w := p][..n] == publishers[..n][w := p] && publishers[..n][w] == publishers[w];
      BalanceBeside(Held(publishers[..n][w := p]), Holding(publishers[w]), Held(publishers[..n]), Holding(p),
                    Holding(publishers[n]));
    } else {
      assert publishers[w := p][..n] == publishers[..n];
    }
  }

  lemma {:induction false} NobodyHolds(n: nat)
    ensures Held(seq(n, _ => Idle)) == multiset{}
  {
    if n > 0 {
      NobodyHolds(n - 1);
      assert seq(n, _ => Idle)[..n - 1] == seq(n - 1, _ => Idle);
    }
  }

  /** What the publishers hold after one of them moves on from x to y. */
  lemma Passed(before: multiset<Payload>, after: multiset<Payload>, x: multiset<Payload>, y: multiset<Payload>)
    requires after + x == before + y
    ensures x == y ==> after == before
    ensures y == multiset{} ==> before == after + x
    ensures x == multiset{} ==> after == before + y
  {
    forall q: Payload
      ensures after[q] + x[q] == before[q] + y[q]
    {
      assert (after + x)[q] == (before + y)[q];
    }
  }

  lemma EnqueueKeepsInv(s: State, w: nat, p: Payload)
    requires Inv(s) && w < |s.publishers| && Holding(s.publishers[w]) == multiset{p} && |s.queue| < CAPACITY
    ensures Inv(Enqueue(s, w, p))
  {
    var held := Held(s.publishers[w := Idle]);
    HeldUpdate(s.publishers, w, Idle);
    Passed(Held(s.publishers), held, multiset{p}, multiset{});
    assert Payloads(s.exits) + s.queue + [p] == Payloads(s.exits) + (s.queue + [p]);
    assert multiset(s.offered) == (multiset(s.sent) + multiset{p}) + multiset(s.refused) + held;
  }

  lemma DequeueKeepsInv(s: State, taken: bool)
    requires Inv(s) && s.queue != []
    ensures Inv(Dequeue(s, taken))
  {
    var t := Dequeue(s, taken);
    assert t.exits[..|s.exits|] == s.exits;
    assert s.queue == [s.queue[0]] + s.queue[1..];
  }

  lemma ShiftKeepsInv(s: State, w: nat, to: Publisher)
    requires Inv(s) && w < |s.publishers| && Holding(to) == Holding(s.publishers[w])
    ensures Inv(s.(publishers := s.publishers[w := to]))
  {
    HeldUpdate(s.publishers, w, to);
    Passed(Held(s.publishers), Held(s.publishers[w := to]), Holding(to), Holding(to));
  }

  lemma OfferKeepsInv(s: State, w: nat, p: Payload)
    requires Inv(s) && Enabled(s, Offer(w, p))
    ensures Inv(Next(s, Offer(w, p)))
  {
    var held := Held(s.publishers[w := Trying(p)]);
    HeldUpdate(s.publishers, w, Trying(p));
    Passed(Held(s.publishers), held, multiset{}, multiset{p});
    assert multiset(s.offered) + multiset{p} == multiset(s.sent) + multiset(s.refused) + held;
  }

  lemma RefuseKeepsInv(s: State, w: nat, p: Payload)
    requires Inv(s) && w < |s.publishers| && Holding(s.publishers[w]) == multiset{p}
    ensures Inv(s.(publishers := s.publishers[w := Idle], refused := s.refused + [p]))
  {
    var held := Held(s.publishers[w := Idle]);
    HeldUpdate(s.publishers, w, Idle);
    Passed(Held(s.publishers), held, multiset{p}, multiset{});
    assert multiset(s.offered) == multiset(s.sent) + (multiset(s.refused) + multiset{p}) + held;
  }

  lemma SendKeepsInv(s: State, w: nat, last: bool)
    requires Inv(s) && w < |s.publishers| && (if last then s.publishers[w].Retrying? else s.publishers[w].Trying?)
    ensures Inv(Next(s, Proceed(w)))
  {
    var p := s.publishers[w].p;
    if |s.queue| < CAPACITY {
      EnqueueKeepsInv(s, w, p);
    } else if last {
      RefuseKeepsInv(s, w, p);
    } else {
      ShiftKeepsInv(s, w, Evicting(p));
    }
  }

  lemma EvictKeepsInv(s: State, w: nat)
    requires Inv(s) && w < |s.publishers| && s.publishers[w].Evicting?
    ensures Inv(Next(s, Proceed(w)))
  {
    var moved := s.(publishers := s.publishers[w := Retrying(s.publishers[w].p)]);
    ShiftKeepsInv(s, w, Retrying(s.publishers[w].p));
    if s.queue != [] {
      DequeueKeepsInv(moved, false);
    }
  }

  lemma InvStep(s: State, mv: Move)
    requires Inv(s) && Enabled(s, mv)
    ensures Inv(Next(s, mv))
  {
    match mv
    case Offer(w, p) =>
      OfferKeepsInv(s, w, p);
    case Take =>
      DequeueKeepsInv(s, true);
    case Proceed(w) =>
      if s.publishers[w].Evicting? {
        EvictKeepsInv(s, w);
      } else {
        SendKeepsInv(s, w, s.publishers[w].Retrying?);
      }
  }

  lemma {:induction false} InvRun(n: nat, moves: seq<Move>)
    requires Runs(Init(n), moves)
    ensures Inv(After(Init(n), moves))
  {
    if moves == [] {
      NobodyHolds(n);
    } else {
      InvRun(n, moves[..|moves| - 1]);
      InvStep(After(Init(n), moves[..|moves| - 1]), moves[|moves| - 1]);
    }
  }

  lemma {:induction false} ExitsSplit(exits: seq<Exit>)
    ensures multiset(Payloads(exits)) == multiset(Leaving(exits, true)) + multiset(Leaving(exits, false))
  {
    if exits != [] {
      ExitsSplit(exits[..|exits| - 1]);
    }
  }

  lemma {:induction false} TakenIsSubsequence(exits: seq<Exit>)
    ensures Subsequence(Leaving(exits, true), Payloads(exits))
  {
    if exits != [] {
      var front := exits[..|exits| - 1];
      TakenIsSubsequence(front);
      assert Payloads(exits)[..|exits| - 1] == Payloads(front) by {
        PayloadsSize(front);
      }
      PayloadsSize(front);
      if exits[|exits| - 1].taken {
        var taken := Leaving(front, true);
        assert (taken + [exits[|exits| - 1].p])[..|taken|] == taken;
      }
    }
  }

  lemma {:induction false} PayloadsSize(exits: seq<Exit>)
    ensures |Payloads(exits)| == |exits|
  {
    if exits != [] {
      PayloadsSize(exits[..|exits| - 1]);
    }
  }

  lemma {:induction false} SubsequenceWithTail(a: seq<Payload>, b: seq<Payload>, tail: seq<Payload>)
    requires Subsequence(a, b)
    ensures Subsequence(a + tail, b + tail)
  {
    if tail == [] {
      assert a + tail == a && b + tail == b;
    } else {
      var n := |tail| - 1;
      SubsequenceWithTail(a, b, tail[..n]);
      assert (a + tail)[..|a + tail| - 1] == a + tail[..n] && (b + tail)[..|b + tail| - 1] == b + tail[..n];
    }
  }

  /** For any number of publishers: the queue is bounded, every payload offered is in exactly one place, and what the
      consumer has taken and will take is in the order sent. */
  lemma EveryPayloadIsAccountedFor(n: nat, moves: seq<Move>)
    requires Runs(Init(n), moves)
    ensures var s := After(Init(n), moves);
            && |s.queue| <= CAPACITY
            && multiset(s.offered)
               == multiset(Leaving(s.exits, true)) + multiset(Leaving(s.exits, false)) + multiset(s.refused)
                  + multiset(s.queue) + Held(s.publishers)
            && Subsequence(Leaving(s.exits, true) + s.queue, s.sent)
  {
    var s := After(Init(n), moves);
    InvRun(n, moves);
    ExitsSplit(s.exits);
    TakenIsSubsequence(s.exits);
    SubsequenceWithTail(Leaving(s.exits, true), Payloads(s.exits), s.queue);
    assert multiset(s.sent) == multiset(Payloads(s.exits)) + multiset(s.queue);
  }

  // ---------------------------------------------------------------- one publisher

  ghost predicate Alone(s: State) {
    && |s.publishers| == 1
    && s.refused == []
    && s.offered == s.sent + (if s.publishers[0].Idle? then [] else [s.publishers[0].p])
    && (s.publishers[0].Retrying? ==> |s.queue| < CAPACITY)
    && |s.queue| <= CAPACITY
  }

  lemma AloneStep(s: State, mv: Move)
    requires Alone(s) && Enabled(s, mv)
    ensures Alone(Next(s, mv))
  {
    assert s.sent + [] == s.sent;
  }

  /** A single publisher's newest payload is never refused, and the queue's order is the order of the offers. */
  lemma {:induction false} SinglePublisherIsNeverRefused(moves: seq<Move>)
    requires Runs(Init(1), moves)
    ensures Alone(After(Init(1), moves))
    ensures var s := After(Init(1), moves); s.refused == [] && (s.publishers[0].Idle? ==> s.offered == s.sent)
  {
    if moves != [] {
      SinglePublisherIsNeverRefused(moves[..|moves| - 1]);
      AloneStep(After(Init(1), moves[..|moves| - 1]), moves[|moves| - 1]);
    }
  }

  lemma Go(s: State, moves: seq<Move>, mv: Move) returns (longer: seq<Move>)
    requires Runs(s, moves) && Enabled(After(s, moves), mv)
    ensures longer == moves + [mv] && Runs(s, longer) && After(s, longer) == Next(After(s, moves), mv)
  {
    longer := moves + [mv];
    assert longer[..|moves|] == moves;
  }

  lemma {:induction false} Fill(n: nat, k: nat) returns (moves: seq<Move>)
    requires n > 0 && k <= CAPACITY
    ensures Runs(Init(n), moves)
    ensures var s := After(Init(n), moves); |s.queue| == k && s.publishers == seq(n, _ => Idle) && s.refused == []
  {
    if k == 0 {
      moves := [];
    } else {
      moves := Fill(n, k - 1);
      moves := Go(Init(n), moves, Offer(0, 0));
      moves := Go(Init(n), moves, Proceed(0));
    }
  }

  /** With more than one, another may refill the slot the first one made: the newest payload is then the one lost. */
  lemma TwoPublishersMayRefuse(n: nat) returns (moves: seq<Move>)
    requires n >= 2
    ensures Runs(Init(n), moves) && After(Init(n), moves).refused == [7]
  {
    moves := Fill(n, CAPACITY);
    moves := Go(Init(n), moves, Offer(0, 7));
    moves := Go(Init(n), moves, Proceed(0));
    moves := Go(Init(n), moves, Proceed(0));
    assert After(Init(n), moves).publishers == seq(n, _ => Idle)[0 := Retrying(7)];
    moves := Go(Init(n), moves, Offer(1, 8));
    moves := Go(Init(n), moves, Proceed(1));
    moves := Go(Init(n), moves, Proceed(0));
  }

  lemma {:induction false} NobodyOffersNothing(moves: seq<Move>)
    requires Runs(Init(0), moves)
    ensures After(Init(0), moves) == Init(0)
  {
    if moves != [] {
      NobodyOffersNothing(moves[..|moves| - 1]);
    }
  }

  /** The newest payload is never the one dropped, in any run, exactly when there is at most one publisher. */
  lemma NewestIsKeptIff(n: nat)
    ensures (forall moves :: Runs(Init(n), moves) ==> After(Init(n), moves).refused == []) <==> n <= 1
  {
    if n >= 2 {
      var moves := TwoPublishersMayRefuse(n);
    } else {
      forall moves | Runs(Init(n), moves)
        ensures After(Init(n), moves).refused == []
      {
        if n == 0 {
          NobodyOffersNothing(moves);
        } else {
          SinglePublisherIsNeverRefused(moves);
        }
      }
    }
  }

  // ---------------------------------------------------------------- uninterrupted calls

  /** Of a full queue the oldest goes. */
  function Queued(queue: seq<Payload>, p: Payload): seq<Payload> {
    (if |queue| < CAPACITY then queue else queue[1..]) + [p]
  }

  /** The moves of one enqueue between which nobody else moves. */
  function EnqueueMoves(queue: seq<Payload>, w: nat, p: Payload): seq<Move> {
    if |queue| < CAPACITY then [Offer(w, p), Proceed(w)] else [Offer(w, p), Proceed(w), Proceed(w), Proceed(w)]
  }

  /** A state but for the queue and what went in and out of it. */
  ghost predicate Moved(s: State, t: State, p: Payload) {
    && t.queue == Queued(s.queue, p) && t.publishers == s.publishers && t.refused == s.refused
    && t.offered == s.offered + [p] && t.sent == s.sent + [p]
    && t.exits == if |s.queue| < CAPACITY then s.exits else s.exits + [Exit(s.queue[0], false)]
  }

  lemma EnqueueWithRoom(s: State, moves: seq<Move>, w: nat, p: Payload) returns (longer: seq<Move>)
    requires Runs(s, moves) && Enabled(After(s, moves), Offer(w, p)) && |After(s, moves).queue| < CAPACITY
    ensures longer == moves + [Offer(w, p), Proceed(w)]
    ensures Runs(s, longer) && Moved(After(s, moves), After(s, longer), p)
  {
    var publishers := After(s, moves).publishers;
    longer := Go(s, moves, Offer(w, p));
    longer := Go(s, longer, Proceed(w));
    assert publishers[w := Trying(p)][w := Idle] == publishers;
  }

  lemma EvictOldest(s: State, moves: seq<Move>, w: nat, p: Payload) returns (longer: seq<Move>)
    requires Runs(s, moves) && Enabled(After(s, moves), Offer(w, p)) && |After(s, moves).queue| == CAPACITY
    ensures longer == moves + [Offer(w, p), Proceed(w), Proceed(w)] && Runs(s, longer)
    ensures var t := After(s, moves);
            After(s, longer) == t.(queue := t.queue[1..], publishers := t.publishers[w := Retrying(p)],
                                   offered := t.offered + [p], exits := t.exits + [Exit(t.queue[0], false)])
  {
    var publishers := After(s, moves).publishers;
    longer := Go(s, moves, Offer(w, p));
    longer := Go(s, longer, Proceed(w));
    longer := Go(s, longer, Proceed(w));
    assert publishers[w := Trying(p)][w := Evicting(p)][w := Retrying(p)] == publishers[w := Retrying(p)];
  }

  /** Uninterrupted, an enqueue leaves the publisher idle again and the queue as one step would. */
  lemma UninterruptedEnqueue(s: State, moves: seq<Move>, w: nat, p: Payload) returns (longer: seq<Move>)
    requires Runs(s, moves) && Enabled(After(s, moves), Offer(w, p)) && |After(s, moves).queue| <= CAPACITY
    ensures longer == moves + EnqueueMoves(After(s, moves).queue, w, p)
    ensures Runs(s, longer) && Moved(After(s, moves), After(s, longer), p)
  {
    if |After(s, moves).queue| < CAPACITY {
      longer := EnqueueWithRoom(s, moves, w, p);
    } else {
      var publishers := After(s, moves).publishers;
      longer := EvictOldest(s, moves, w, p);
      longer := Go(s, longer, Proceed(w));
      assert publishers[w := Retrying(p)][w := Idle] == publishers;
    }
  }

  /** From t to u the consumer took the n oldest, in order. */
  ghost predicate TookOldest(t: State, u: State, n: nat) {
    && n <= |t.queue| && u.queue == t.queue[n..] && u.publishers == t.publishers
    && Leaving(u.exits, true) == Leaving(t.exits, true) + t.queue[..n]
  }

  lemma TakeOldest(s: State)
    requires s.queue != []
    ensures TookOldest(s, Next(s, Take), 1)
  {
    var exits := s.exits + [Exit(s.queue[0], true)];
    assert exits[..|s.exits|] == s.exits;
  }

  lemma TookOneMore(t: State, u: State, v: State, n: nat)
    requires TookOldest(t, u, n) && TookOldest(u, v, 1)
    ensures TookOldest(t, v, n + 1)
  {
    var queue := t.queue;
    assert queue[n..][1..] == queue[n + 1..] && queue[..n] + queue[n..][..1] == queue[..n + 1];
  }

  /** The consumer can take as much as is queued, and gets it in order. */
  lemma {:induction false} UninterruptedDrain(s: State, moves: seq<Move>, n: nat) returns (longer: seq<Move>)
    requires Runs(s, moves) && n <= |After(s, moves).queue|
    ensures moves <= longer && |longer| == |moves| + n && Runs(s, longer)
    ensures TookOldest(After(s, moves), After(s, longer), n)
  {
    if n == 0 {
      longer := moves;
    } else {
      var before := UninterruptedDrain(s, moves, n - 1);
      TakeOldest(After(s, before));
      longer := Go(s, before, Take);
      TookOneMore(After(s, moves), After(s, before), After(s, longer), n - 1);
    }
  }

  // ---------------------------------------------------------------- the notifier as an object

  class Notifier {
    var events: seq<Payload>

    constructor ()
      ensures events == []
    {
      events := [];
    }

    /** An uninterrupted Handle: only ended deployments count, and only while the webhook is configured. */
    method Handle(configured: bool, isStatusChange: bool, status: DeploymentStatus, payload: Payload)
      requires |events| <= CAPACITY
      modifies this
      ensures |events| <= CAPACITY
      ensures events == if configured && isStatusChange && (status == DeploySuccess || status == DeployFailed) then
                          Queued(old(events), payload)
                        else
                          old(events)
    {
      if !configured {
        return;
      }
      if !isStatusChange {
        return;
      }
      if status != DeploySuccess && status != DeployFailed {
        return;
      }
      if |events| < CAPACITY {
        events := events + [payload];
      } else {
        if |events| > 0 {
          events := events[1..];
        }
        if |events| < CAPACITY {
          events := events + [payload];
        }
      }
    }

    /** The worker empties the queue in order, posting what the settings of the moment let it post. */
    method Drain(configured: nat -> bool) returns (posted: seq<Payload>)
      modifies this
      ensures events == []
      ensures posted == Posted(old(events), configured)
    {
      posted := [];
      var i: nat := 0;
      while |events| > 0
        invariant i <= |old(events)| && events == old(events)[i..]
        invariant posted == Posted(old(events)[..i], configured)
        decreases |events|
      {
        var payload := events[0];
        events := events[1..];
        assert old(events)[..i + 1][..i] == old(events)[..i];
        if configured(i) {
          posted := posted + [payload];
        }
        i := i + 1;
      }
      assert old(events)[..i] == old(events);
    }
  }

  function Posted(queue: seq<Payload>, configured: nat -> bool): seq<Payload> {
    if queue == [] then
      []
    else
      var n := |queue| - 1;
      Posted(queue[..n], configured) + if configured(n) then [queue[n]] else []
  }

  /** Posted, in queue order, is exactly the payloads at whose turn the webhook was configured. */
  lemma {:induction false} PostedIffConfigured(queue: seq<Payload>, configured: nat -> bool) returns (places: seq<nat>)
    ensures forall i: nat :: i in places <==> i < |queue| && configured(i)
    ensures forall k :: 0 <= k < |places| ==> places[k] < |queue|
    ensures forall k, l :: 0 <= k < l < |places| ==> places[k] < places[l]
    ensures |places| == |Posted(queue, configured)|
    ensures forall k :: 0 <= k < |places| ==> Posted(queue, configured)[k] == queue[places[k]]
  {
    if queue == [] {
      places := [];
    } else {
      var n := |queue| - 1;
      var front := PostedIffConfigured(queue[..n], configured);
      places := front + if configured(n) then [n] else [];
    }
  }
}
