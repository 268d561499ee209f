/** The metrics service as an object: latest values, the recent histories, and the buffer. Times in seconds. */
module MetricsService {
  import opened Common
  import MetricsFlush

  datatype Sample<V> = Sample(value: V, at: int)

  datatype Metrics = Metrics(server: nat, cpuUsage: real, rxSpeed: real, txSpeed: real, at: int)

  const RETENTION := 15 * 60

  /** What the trimming loop keeps: everything from the first sample that is younger than the cutoff. */
  function DropExpired<V>(points: seq<Sample<V>>, cutoff: int): seq<Sample<V>> {
    if points == [] || points[0].at > cutoff then points else DropExpired(points[1..], cutoff)
  }

  /** What a history should hold: every sample younger than the cutoff, in order. */
  function Unexpired<V>(points: seq<Sample<V>>, cutoff: int): seq<Sample<V>> {
    if points == [] then
      []
    else
      var rest := Unexpired(points[1..], cutoff);
      if points[0].at > cutoff then [points[0]] + rest else rest
  }

  /** The history that recording `samples` one by one leaves. */
  function History<V>(samples: seq<Sample<V>>): seq<Sample<V>> {
    if samples == [] then
      []
    else
      var last := samples[|samples| - 1];
      DropExpired(History(samples[..|samples| - 1]) + [last], last.at - RETENTION)
  }

  ghost predicate Nondecreasing<V>(samples: seq<Sample<V>>) {
    forall i, j :: 0 <= i < j < |samples| ==> samples[i].at <= samples[j].at
  }

  lemma {:induction false} UnexpiredIsNoLonger<V>(points: seq<Sample<V>>, cutoff: int)
    ensures |Unexpired(points, cutoff)| <= |points|
    ensures Unexpired(points, cutoff) == points <==> forall i :: 0 <= i < |points| ==> points[i].at > cutoff
  {
    if points != [] {
      UnexpiredIsNoLonger(points[1..], cutoff);
      assert points == [points[0]] + points[1..];
      assert forall i :: 0 < i < |points| ==> points[i] == points[1..][i - 1];
    }
  }

  /** Dropping a prefix keeps just the young samples exactly when no old one hides behind a young one. */
  lemma {:induction false} PrefixDropIsFilterIff<V>(points: seq<Sample<V>>, cutoff: int)
    ensures DropExpired(points, cutoff) == Unexpired(points, cutoff)
            <==> forall i, j :: 0 <= i < j < |points| && points[i].at > cutoff ==> points[j].at > cutoff
  {
    if points != [] {
      assert forall i :: 0 < i < |points| ==> points[i] == points[1..][i - 1];
      if points[0].at > cutoff {
        UnexpiredIsNoLonger(points, cutoff);
      } else {
        PrefixDropIsFilterIff(points[1..], cutoff);
      }
    }
  }

  lemma {:induction false} UnexpiredAppend<V>(a: seq<Sample<V>>, b: seq<Sample<V>>, cutoff: int)
    ensures Unexpired(a + b, cutoff) == Unexpired(a, cutoff) + Unexpired(b, cutoff)
  {
    if a == [] {
      assert a + b == b;
    } else {
      assert (a + b)[1..] == a[1..] + b;
      UnexpiredAppend(a[1..], b, cutoff);
    }
  }

  lemma {:induction false} UnexpiredTwice<V>(points: seq<Sample<V>>, early: int, late: int)
    requires early <= late
    ensures Unexpired(Unexpired(points, early), late) == Unexpired(points, late)
  {
    if points != [] {
      UnexpiredTwice(points[1..], early, late);
      if points[0].at > early {
        assert ([points[0]] + Unexpired(points[1..], early))[1..] == Unexpired(points[1..], early);
      }
    }
  }

  lemma {:induction false} UnexpiredIsASelection<V>(points: seq<Sample<V>>, cutoff: int)
    ensures forall p :: p in Unexpired(points, cutoff) ==> p in points
  {
    if points != [] {
      UnexpiredIsASelection(points[1..], cutoff);
      assert points == [points[0]] + points[1..];
    }
  }

  lemma {:induction false} UnexpiredIsYoung<V>(points: seq<Sample<V>>, cutoff: int)
    ensures forall p :: p in Unexpired(points, cutoff) <==> p in points && p.at > cutoff
  {
    if points != [] {
      UnexpiredIsYoung(points[1..], cutoff);
      assert points == [points[0]] + points[1..];
    }
  }

  lemma {:induction false} UnexpiredKeepsOrder<V>(points: seq<Sample<V>>, cutoff: int)
    requires Nondecreasing(points)
    ensures Nondecreasing(Unexpired(points, cutoff))
  {
    if points != [] {
      var rest := Unexpired(points[1..], cutoff);
      UnexpiredKeepsOrder(points[1..], cutoff);
      UnexpiredIsASelection(points[1..], cutoff);
      forall i | 0 <= i < |rest|
        ensures points[0].at <= rest[i].at
      {
        assert rest[i] in points[1..];
      }
    }
  }

  lemma OneMoreInOrder<V>(samples: seq<Sample<V>>, last: Sample<V>, early: int)
    requires Nondecreasing(samples + [last]) && early <= last.at - RETENTION
    ensures DropExpired(Unexpired(samples, early) + [last], last.at - RETENTION)
            == Unexpired(samples + [last], last.at - RETENTION)
  {
    var kept := Unexpired(samples, early);
    assert forall i :: 0 <= i < |samples| ==> (samples + [last])[i] == samples[i];
    assert (samples + [last])[|samples|] == last && forall p :: p in samples ==> p.at <= last.at;
    UnexpiredKeepsOrder(samples, early);
    UnexpiredIsASelection(samples, early);
    forall i | 0 <= i < |kept|
      ensures kept[i].at <= last.at
    {
      assert kept[i] in samples;
    }
    PrefixDropIsFilterIff(kept + [last], last.at - RETENTION);
    UnexpiredAppend(kept, [last], last.at - RETENTION);
    UnexpiredAppend(samples, [last], last.at - RETENTION);
    UnexpiredTwice(samples, early, last.at - RETENTION);
  }

  lemma HistorySnoc<V>(front: seq<Sample<V>>, last: Sample<V>)
    ensures History(front + [last]) == DropExpired(History(front) + [last], last.at - RETENTION)
  {
    assert (front + [last])[..|front|] == front;
  }

  lemma NondecreasingFront<V>(front: seq<Sample<V>>, last: Sample<V>)
    requires Nondecreasing(front + [last])
    ensures Nondecreasing(front) && (front != [] ==> front[|front| - 1].at <= last.at)
  {
    var whole := front + [last];
    assert whole[|front|] == last && forall i :: 0 <= i < |front| ==> whole[i] == front[i];
  }

  /** The history is every sample of the last quarter of an hour, in order. */
  ghost predicate HistoryIsRecent<V>(samples: seq<Sample<V>>) {
    samples != [] ==> History(samples) == Unexpired(samples, samples[|samples| - 1].at - RETENTION)
  }

  lemma HistoryStep<V>(front: seq<Sample<V>>, last: Sample<V>)
    requires Nondecreasing(front + [last]) && HistoryIsRecent(front)
    ensures HistoryIsRecent(front + [last])
  {
    NondecreasingFront(front, last);
    HistorySnoc(front, last);
    OneMoreInOrder(front, last, if front == [] then last.at - RETENTION else front[|front| - 1].at - RETENTION);
    assert (front + [last])[|front|] == last;
  }

  /** For timestamps that do not run backwards the history is the recent past. */
  lemma {:induction false} HistoryIsTheRecentPast<V>(samples: seq<Sample<V>>)
    requires Nondecreasing(samples)
    ensures HistoryIsRecent(samples)
  {
    if samples != [] {
      var front, last := samples[..|samples| - 1], samples[|samples| - 1];
      assert samples == front + [last];
      NondecreasingFront(front, last);
      HistoryIsTheRecentPast(front);
      HistoryStep(front, last);
    }
  }

  /** The trimming loop. */
  method Trim<V>(points: seq<Sample<V>>, cutoff: int) returns (kept: seq<Sample<V>>)
    ensures kept == DropExpired(points, cutoff)
  {
    var i := 0;
    while i < |points|
      invariant i <= |points| && DropExpired(points, cutoff) == DropExpired(points[i..], cutoff)
    {
      if points[i].at > cutoff {
        break;
      }
      assert points[i..][1..] == points[i + 1..];
      i := i + 1;
    }
    kept := points[i..];
  }

  function Get<V>(m: map<nat, seq<Sample<V>>>, server: nat): seq<Sample<V>> {
    if server in m then m[server] else []
  }

  /** A server's history is what recording its samples leaves. */
  predicate TracksAt<V(==)>(histories: map<nat, seq<Sample<V>>>, seen: map<nat, seq<Sample<V>>>, server: nat) {
    Get(histories, server) == History(Get(seen, server))
  }

  ghost predicate Tracks<V(!new)>(histories: map<nat, seq<Sample<V>>>, seen: map<nat, seq<Sample<V>>>) {
    forall sid: nat :: TracksAt(histories, seen, sid)
  }

  lemma StillTracks<V(!new)>(histories: map<nat, seq<Sample<V>>>, seen: map<nat, seq<Sample<V>>>, server: nat,
                             p: Sample<V>, kept: seq<Sample<V>>)
    requires Tracks(histories, seen)
    requires kept == DropExpired(Get(histories, server) + [p], p.at - RETENTION)
    ensures Tracks(histories[server := kept], seen[server := Get(seen, server) + [p]])
  {
    var histories', seen' := histories[server := kept], seen[server := Get(seen, server) + [p]];
    HistorySnoc(Get(seen, server), p);
    forall sid: nat
      ensures TracksAt(histories', seen', sid)
    {
      assert TracksAt(histories, seen, sid);
    }
  }

  lemma TrackedIsRecent<V>(histories: map<nat, seq<Sample<V>>>, seen: map<nat, seq<Sample<V>>>, server: nat)
    requires TracksAt(histories, seen, server) && server in seen
    requires seen[server] != [] && Nondecreasing(seen[server])
    ensures var samples := seen[server];
            Get(histories, server) == Unexpired(samples, samples[|samples| - 1].at - RETENTION)
  {
    HistoryIsTheRecentPast(seen[server]);
  }

  class Service {
    var latest: map<nat, Metrics>
    var cpuUsageHistory: map<nat, seq<Sample<real>>>
    var netSpeedHistory: map<nat, seq<Sample<(real, real)>>>
    var buffer: seq<Metrics>

    ghost var cpuSeen: map<nat, seq<Sample<real>>>
    ghost var netSeen: map<nat, seq<Sample<(real, real)>>>

    ghost predicate Valid()
      reads this
    {
      Tracks(cpuUsageHistory, cpuSeen) && Tracks(netSpeedHistory, netSeen)
    }

    constructor ()
      ensures Valid() && latest == map[] && buffer == [] && cpuSeen == map[] && netSeen == map[]
    {
      latest, buffer := map[], [];
      cpuUsageHistory, netSpeedHistory := map[], map[];
      cpuSeen, netSeen := map[], map[];
    }

    method RecordCpuUsage(server: nat, usage: real, at: int)
      requires Valid()
      modifies this`cpuUsageHistory, this`cpuSeen
      ensures Valid()
      ensures cpuSeen == old(cpuSeen)[server := Get(old(cpuSeen), server) + [Sample(usage, at)]]
    {
      var points := Get(cpuUsageHistory, server) + [Sample(usage, at)];
      points := Trim(points, at - RETENTION);
      StillTracks(cpuUsageHistory, cpuSeen, server, Sample(usage, at), points);
      cpuUsageHistory := cpuUsageHistory[server := points];
      cpuSeen := cpuSeen[server := Get(cpuSeen, server) + [Sample(usage, at)]];
    }

    method RecordNetSpeed(server: nat, rx: real, tx: real, at: int)
      requires Valid()
      modifies this`netSpeedHistory, this`netSeen
      ensures Valid()
      ensures netSeen == old(netSeen)[server := Get(old(netSeen), server) + [Sample((rx, tx), at)]]
    {
      var points := Get(netSpeedHistory, server) + [Sample((rx, tx), at)];
      points := Trim(points, at - RETENTION);
      StillTracks(netSpeedHistory, netSeen, server, Sample((rx, tx), at), points);
      netSpeedHistory := netSpeedHistory[server := points];
      netSeen := netSeen[server := Get(netSeen, server) + [Sample((rx, tx), at)]];
    }

    /** `flush` tells whether the call starts a flush: the step that the buffer's machine takes, for the flusher f. */
    method Ingest(m: Metrics, ghost s: MetricsFlush.State<Metrics>, ghost f: nat) returns (flush: bool)
      requires Valid()
      requires s.buffer == buffer && MetricsFlush.Enabled(s, MetricsFlush.Ingest(m, f))
      modifies this
      ensures Valid()
      ensures latest == old(latest)[m.server := m]
      ensures cpuSeen == old(cpuSeen)[m.server := Get(old(cpuSeen), m.server) + [Sample(m.cpuUsage, m.at)]]
      ensures netSeen == old(netSeen)[m.server := Get(old(netSeen), m.server) + [Sample((m.rxSpeed, m.txSpeed), m.at)]]
      ensures buffer == old(buffer) + [m] && flush == (|buffer| >= MetricsFlush.BATCH_SIZE)
      ensures var t := MetricsFlush.Next(s, MetricsFlush.Ingest(m, f));
              buffer == t.buffer && (flush <==> f in t.flushers)
    {
      latest := latest[m.server := m];
      RecordCpuUsage(m.server, m.cpuUsage, m.at);
      RecordNetSpeed(m.server, m.rxSpeed, m.txSpeed, m.at);
      buffer := buffer + [m];
      flush := |buffer| >= MetricsFlush.BATCH_SIZE;
    }

    /** After any ingest with timestamps in order, both histories are the recent past of everything seen. */
    lemma HistoriesAreRecent(server: nat)
      requires Valid() && server in cpuSeen && server in netSeen
      requires cpuSeen[server] != [] && Nondecreasing(cpuSeen[server])
      requires netSeen[server] != [] && Nondecreasing(netSeen[server])
      ensures Get(cpuUsageHistory, server)
              == Unexpired(cpuSeen[server], cpuSeen[server][|cpuSeen[server]| - 1].at - RETENTION)
      ensures Get(netSpeedHistory, server)
              == Unexpired(netSeen[server], netSeen[server][|netSeen[server]| - 1].at - RETENTION)
      ensures forall p :: p in Get(cpuUsageHistory, server)
                <==> p in cpuSeen[server] && p.at > cpuSeen[server][|cpuSeen[server]| - 1].at - 900
      ensures forall p :: p in Get(netSpeedHistory, server)
                <==> p in netSeen[server] && p.at > netSeen[server][|netSeen[server]| - 1].at - 900
    {
      assert TracksAt(cpuUsageHistory, cpuSeen, server) && TracksAt(netSpeedHistory, netSeen, server);
      TrackedIsRecent(cpuUsageHistory, cpuSeen, server);
      TrackedIsRecent(netSpeedHistory, netSeen, server);
      UnexpiredIsYoung(cpuSeen[server], cpuSeen[server][|cpuSeen[server]| - 1].at - 900);
      UnexpiredIsYoung(netSeen[server], netSeen[server][|netSeen[server]| - 1].at - 900);
    }
  }
}
