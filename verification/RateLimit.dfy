/** The sliding-window limiter: per key a slice of times, compacted in place, standing in for the whole history. */
module RateLimit {
  import opened Common

  /** A client's address; keys are only ever compared. */
  type Key = nat

  datatype Hit = Hit(key: Key, at: int)

  /** The times of a key's hits, in order. */
  function TimesOf(log: seq<Hit>, key: Key): seq<int> {
    if log == [] then
      []
    else
      var last := log[|log| - 1];
      var rest := TimesOf(log[..|log| - 1], key);
      if last.key == key then rest + [last.at] else rest
  }

  /** The times after the cutoff, in order. */
  function Later(times: seq<int>, cutoff: int): seq<int> {
    if times == [] then
      []
    else
      var last := times[|times| - 1];
      var rest := Later(times[..|times| - 1], cutoff);
      if last > cutoff then rest + [last] else rest
  }

  /** How many of the times lie in the interval (from, to]. */
  function Within(times: seq<int>, from: int, to: int): nat {
    if times == [] then
      0
    else
      var last := times[|times| - 1];
      Within(times[..|times| - 1], from, to) + if from < last <= to then 1 else 0
  }

  /** The rule a caller sees: fewer than `limit` earlier allowed hits are younger than the window. */
  predicate Permitted(log: seq<Hit>, key: Key, now: int, limit: int, window: int) {
    |Later(TimesOf(log, key), now - window)| < limit
  }

  function Record(log: seq<Hit>, call: Hit, limit: int, window: int): seq<Hit> {
    if Permitted(log, call.key, call.at, limit, window) then log + [call] else log
  }

  /** The places of the key's hits that are younger than the cutoff. */
  function Recent(log: seq<Hit>, key: Key, cutoff: int): set<nat> {
    set i: nat | i < |log| && log[i].key == key && log[i].at > cutoff
  }

  lemma RecentSnoc(log: seq<Hit>, hit: Hit, key: Key, cutoff: int)
    ensures Recent(log + [hit], key, cutoff)
            == Recent(log, key, cutoff) + if hit.key == key && hit.at > cutoff then {|log|} else {}
  {
    var longer := log + [hit];
    forall i: nat
      ensures i in Recent(longer, key, cutoff)
              <==> i in Recent(log, key, cutoff) || (i == |log| && hit.key == key && hit.at > cutoff)
    {
      assert i < |log| ==> longer[i] == log[i];
    }
  }

  lemma {:induction false} RecentAreCounted(log: seq<Hit>, key: Key, cutoff: int)
    ensures |Later(TimesOf(log, key), cutoff)| == |Recent(log, key, cutoff)|
  {
    if log != [] {
      var front, hit := log[..|log| - 1], log[|log| - 1];
      RecentAreCounted(front, key, cutoff);
      assert log == front + [hit];
      TimesSnoc(front, hit, key);
      LaterSnoc(TimesOf(front, key), hit.at, cutoff);
      RecentSnoc(front, hit, key, cutoff);
    }
  }

  lemma LaterSnoc(times: seq<int>, t: int, cutoff: int)
    ensures Later(times + [t], cutoff) == if t > cutoff then Later(times, cutoff) + [t] else Later(times, cutoff)
  {
    assert (times + [t])[..|times|] == times;
  }

  lemma {:induction false} LaterTwice(times: seq<int>, early: int, late: int)
    requires early <= late
    ensures Later(Later(times, early), late) == Later(times, late)
  {
    if times != [] {
      var front, last := times[..|times| - 1], times[|times| - 1];
      LaterTwice(front, early, late);
      LaterSnoc(Later(front, early), last, late);
    }
  }

  lemma TimesSnoc(log: seq<Hit>, hit: Hit, key: Key)
    ensures TimesOf(log + [hit], key) == if hit.key == key then TimesOf(log, key) + [hit.at] else TimesOf(log, key)
  {
    assert (log + [hit])[..|log|] == log;
  }

  predicate LetInAt(times: seq<int>, i: nat, limit: int, window: int)
    requires i < |times|
  {
    |Later(times[..i], times[i] - window)| < limit
  }

  /** Every time was let in under the rule, given the ones before it. */
  ghost predicate LetInByRule(times: seq<int>, limit: int, window: int) {
    forall i: nat :: i < |times| ==> LetInAt(times, i, limit, window)
  }

  lemma LetInPrefix(times: seq<int>, n: nat, i: nat, limit: int, window: int)
    requires i < n <= |times|
    ensures LetInAt(times[..n], i, limit, window) == LetInAt(times, i, limit, window)
  {
    assert times[..n][..i] == times[..i];
  }

  lemma {:induction false} WithinAtMostLater(times: seq<int>, from: int, to: int, cutoff: int)
    requires cutoff <= from
    ensures Within(times, from, to) <= |Later(times, cutoff)|
  {
    if times != [] {
      WithinAtMostLater(times[..|times| - 1], from, to, cutoff);
    }
  }

  lemma {:induction false} WindowHoldsAtMostLimit(times: seq<int>, limit: int, window: int, from: int)
    requires LetInByRule(times, limit, window)
    ensures Within(times, from, from + window) <= if limit > 0 then limit else 0
  {
    if times != [] {
      var n := |times| - 1;
      forall i: nat | i < n
        ensures LetInAt(times[..n], i, limit, window)
      {
        LetInPrefix(times, n, i, limit, window);
      }
      WindowHoldsAtMostLimit(times[..n], limit, window, from);
      if from < times[n] <= from + window {
        assert LetInAt(times, n, limit, window);
        WithinAtMostLater(times[..n], from, from + window, times[n] - window);
      }
    }
  }

  lemma LetInExtends(times: seq<int>, t: int, limit: int, window: int)
    requires LetInByRule(times, limit, window) && |Later(times, t - window)| < limit
    ensures LetInByRule(times + [t], limit, window)
  {
    var longer := times + [t];
    assert longer[..|times|] == times;
    forall i: nat | i < |longer|
      ensures LetInAt(longer, i, limit, window)
    {
      if i < |times| {
        LetInPrefix(longer, |times|, i, limit, window);
      }
    }
  }

  lemma RecordLetsInByRule(log: seq<Hit>, call: Hit, limit: int, window: int, key: Key)
    requires LetInByRule(TimesOf(log, key), limit, window)
    ensures LetInByRule(TimesOf(Record(log, call, limit, window), key), limit, window)
  {
    TimesSnoc(log, call, key);
    if Permitted(log, call.key, call.at, limit, window) && call.key == key {
      LetInExtends(TimesOf(log, key), call.at, limit, window);
    }
  }

  ghost predicate AllLetInByRule(log: seq<Hit>, limit: int, window: int) {
    forall key: Key :: LetInByRule(TimesOf(log, key), limit, window)
  }

  lemma RecordLetsAllInByRule(log: seq<Hit>, call: Hit, limit: int, window: int)
    requires AllLetInByRule(log, limit, window)
    ensures AllLetInByRule(Record(log, call, limit, window), limit, window)
  {
    forall key: Key
      ensures LetInByRule(TimesOf(Record(log, call, limit, window), key), limit, window)
    {
      RecordLetsInByRule(log, call, limit, window, key);
    }
  }

  lemma {:induction false} LaterIsNoLonger(times: seq<int>, cutoff: int)
    ensures |Later(times, cutoff)| <= |times|
  {
    if times != [] {
      LaterIsNoLonger(times[..|times| - 1], cutoff);
    }
  }

  /** A slice header: a backing array of which the first `len` cells are in use. */
  datatype Slice = Slice(buf: array<int>, len: nat)

  ghost predicate Fits(slice: Slice) {
    slice.len <= slice.buf.Length
  }

  ghost function Items(slice: Slice): seq<int>
    requires Fits(slice)
    reads slice.buf
  {
    slice.buf[..slice.len]
  }

  ghost predicate Holds(slice: Slice, times: seq<int>)
    reads slice.buf
  {
    Fits(slice) && Items(slice) == times
  }

  /** Keeps the times after the cutoff, writing them over the front of the same array. */
  method DropUntil(slice: Slice, cutoff: int) returns (kept: Slice)
    requires Fits(slice)
    modifies slice.buf
    ensures kept.buf == slice.buf && Fits(kept)
    ensures Items(kept) == Later(old(Items(slice)), cutoff)
  {
    var buf, n := slice.buf, 0;
    ghost var was := Items(slice);
    for i := 0 to slice.len
      invariant n <= i
      invariant buf[..n] == Later(was[..i], cutoff)
      invariant buf[i..slice.len] == was[i..]
    {
      assert was[..i + 1][..i] == was[..i] && buf[i] == was[i];
      if buf[i] > cutoff {
        buf[n] := buf[i];
        n := n + 1;
      }
      assert was[i..][1..] == was[i + 1..];
    }
    assert was[..slice.len] == was;
    kept := Slice(buf, n);
  }

  /** Appends in place while there is room, and into a larger copy otherwise. */
  method Append(slice: Slice, t: int) returns (longer: Slice)
    requires Fits(slice)
    modifies slice.buf
    ensures Fits(longer) && (longer.buf == slice.buf || fresh(longer.buf))
    ensures Items(longer) == old(Items(slice)) + [t]
  {
    var buf := slice.buf;
    if slice.len == buf.Length {
      buf := new int[2 * slice.len + 1];
      for i := 0 to slice.len
        invariant buf[..i] == slice.buf[..i] && slice.buf[..] == old(slice.buf[..])
      {
        buf[i] := slice.buf[i];
      }
    }
    buf[slice.len] := t;
    longer := Slice(buf, slice.len + 1);
  }

  function Visited(times: seq<int>, now: int, limit: int, window: int): seq<int> {
    var kept := Later(times, now - window);
    if |kept| < limit then kept + [now] else kept
  }

  predicate SameLater(times: seq<int>, history: seq<int>, cutoff: int) {
    Later(times, cutoff) == Later(history, cutoff)
  }

  /** From time `since` on, `times` answers every question about the window as `history` would. */
  ghost predicate Answers(times: seq<int>, history: seq<int>, since: int, limit: int) {
    && |times| <= (if limit > 0 then limit else 0)
    && forall cutoff :: cutoff >= since ==> SameLater(times, history, cutoff)
  }

  lemma VisitedAgreesAt(times: seq<int>, history: seq<int>, now: int, window: int, cutoff: int)
    requires cutoff >= now - window && Later(times, cutoff) == Later(history, cutoff)
    ensures Later(Later(times, now - window), cutoff) == Later(history, cutoff)
    ensures Later(Later(times, now - window) + [now], cutoff) == Later(history + [now], cutoff)
  {
    LaterTwice(times, now - window, cutoff);
    LaterSnoc(Later(times, now - window), now, cutoff);
    LaterSnoc(history, now, cutoff);
  }

  lemma VisitedStillAnswers(times: seq<int>, history: seq<int>, since: int, now: int, limit: int, window: int)
    requires Answers(times, history, since, limit) && now - window >= since
    ensures var history' := if |Later(history, now - window)| < limit then history + [now] else history;
            Answers(Visited(times, now, limit, window), history', now - window, limit)
  {
    var history' := if |Later(history, now - window)| < limit then history + [now] else history;
    var times' := Visited(times, now, limit, window);
    LaterIsNoLonger(times, now - window);
    assert SameLater(times, history, now - window);
    forall cutoff | cutoff >= now - window
      ensures SameLater(times', history', cutoff)
    {
      assert SameLater(times, history, cutoff);
      VisitedAgreesAt(times, history, now, window, cutoff);
    }
  }

  type Slots = map<Key, seq<int>>

  function Slot(slots: Slots, key: Key): seq<int> {
    if key in slots then slots[key] else []
  }

  ghost predicate AllAnswer(slots: Slots, log: seq<Hit>, since: int, limit: int) {
    forall key: Key {:trigger Answers(Slot(slots, key), TimesOf(log, key), since, limit)} ::
      Answers(Slot(slots, key), TimesOf(log, key), since, limit)
  }

  lemma Overwrite(slots: Slots, key: Key, first: seq<int>, second: seq<int>)
    ensures slots[key := first][key := second] == slots[key := second]
  {
  }

  lemma AnswersLater(times: seq<int>, history: seq<int>, since: int, later: int, limit: int)
    requires Answers(times, history, since, limit) && since <= later
    ensures Answers(times, history, later, limit)
  {
  }

  lemma RecordedTimes(log: seq<Hit>, call: Hit, limit: int, window: int, key: Key)
    ensures TimesOf(Record(log, call, limit, window), key)
            == if key == call.key && |Later(TimesOf(log, key), call.at - window)| < limit
               then TimesOf(log, key) + [call.at] else TimesOf(log, key)
  {
    TimesSnoc(log, call, key);
  }

  lemma CallerStillAnswered(slots: Slots, log: seq<Hit>, since: int, call: Hit, limit: int, window: int)
    requires Answers(Slot(slots, call.key), TimesOf(log, call.key), since, limit) && call.at - window >= since
    ensures Answers(Visited(Slot(slots, call.key), call.at, limit, window),
                    TimesOf(Record(log, call, limit, window), call.key), call.at - window, limit)
  {
    RecordedTimes(log, call, limit, window, call.key);
    VisitedStillAnswers(Slot(slots, call.key), TimesOf(log, call.key), since, call.at, limit, window);
  }

  lemma OtherStillAnswered(slots: Slots, log: seq<Hit>, since: int, call: Hit, limit: int, window: int, key: Key)
    requires Answers(Slot(slots, key), TimesOf(log, key), since, limit) && call.at - window >= since && key != call.key
    ensures Answers(Slot(slots, key), TimesOf(Record(log, call, limit, window), key), call.at - window, limit)
  {
    RecordedTimes(log, call, limit, window, key);
    AnswersLater(Slot(slots, key), TimesOf(log, key), since, call.at - window, limit);
  }

  lemma AllStillAnswer(slots: Slots, log: seq<Hit>, since: int, call: Hit, limit: int, window: int)
    requires AllAnswer(slots, log, since, limit) && call.at - window >= since
    ensures AllAnswer(slots[call.key := Visited(Slot(slots, call.key), call.at, limit, window)],
                      Record(log, call, limit, window), call.at - window, limit)
  {
    var slots' := slots[call.key := Visited(Slot(slots, call.key), call.at, limit, window)];
    forall key: Key
      ensures Answers(Slot(slots', key), TimesOf(Record(log, call, limit, window), key), call.at - window, limit)
    {
      assert Answers(Slot(slots, key), TimesOf(log, key), since, limit);
      if key == call.key {
        CallerStillAnswered(slots, log, since, call, limit, window);
      } else {
        OtherStillAnswered(slots, log, since, call, limit, window, key);
        assert Slot(slots', key) == Slot(slots, key);
      }
    }
  }

  /** A visit, told from the slots before and after it. */
  lemma VisitKeepsAnswers(before: Slots, after: Slots, log: seq<Hit>, since: int, call: Hit, limit: int, window: int)
    requires AllAnswer(before, log, since, limit) && call.at - window >= since
    requires after == before[call.key := Visited(Slot(before, call.key), call.at, limit, window)]
    ensures AllAnswer(after, Record(log, call, limit, window), call.at - window, limit)
    ensures Permitted(log, call.key, call.at, limit, window)
            == (|Later(Slot(before, call.key), call.at - window)| < limit)
  {
    AllStillAnswer(before, log, since, call, limit, window);
    VerdictMatches(before, log, since, call, limit, window);
  }

  /** The verdict read off the slice is the verdict of the history. */
  lemma VerdictMatches(slots: Slots, log: seq<Hit>, since: int, call: Hit, limit: int, window: int)
    requires AllAnswer(slots, log, since, limit) && call.at - window >= since
    ensures Permitted(log, call.key, call.at, limit, window)
            == (|Later(Slot(slots, call.key), call.at - window)| < limit)
  {
    assert Answers(Slot(slots, call.key), TimesOf(log, call.key), since, limit);
    assert SameLater(Slot(slots, call.key), TimesOf(log, call.key), call.at - window);
  }

  class Limiter {
    const window: int
    const limit: int
    var hits: map<Key, Slice>

    ghost var contents: Slots      // what the slices hold
    ghost var Repr: set<array<int>>
    ghost var log: seq<Hit>        // every hit ever allowed
    ghost var clock: int

    /** Each key has its own array, and `contents` says what is in it. */
    ghost predicate Stored()
      reads this`hits, this`contents, this`Repr, Repr
    {
      && contents.Keys == hits.Keys
      && (forall k :: k in hits ==> hits[k].buf in Repr && Holds(hits[k], contents[k]))
      && (forall j, k :: j in hits && k in hits && j != k ==> hits[j].buf != hits[k].buf)
    }

    ghost predicate Valid()
      reads this, Repr
    {
      Stored() && AllAnswer(contents, log, clock - window, limit) && AllLetInByRule(log, limit, window)
    }

    constructor (limit: int, window: int)
      ensures Valid() && Repr == {}
      ensures this.limit == limit && this.window == window && log == []
    {
      this.limit := limit;
      this.window := window;
      hits := map[];
      contents := map[];
      Repr := {};
      log := [];
      clock := 0;
    }

    /** Makes sure the key has a slice. */
    method Fetch(key: Key) returns (slice: Slice)
      requires Stored()
      modifies this`hits, this`contents, this`Repr
      ensures Stored() && old(Repr) <= Repr && fresh(Repr - old(Repr))
      ensures key in hits && slice == hits[key]
      ensures contents == old(contents)[key := Slot(old(contents), key)]
    {
      if key in hits {
        return hits[key];
      }
      var empty := new int[0];
      slice := Slice(empty, 0);
      hits := hits[key := slice];
      contents := contents[key := []];
      Repr := Repr + {empty};
    }

    method Compact(key: Key, now: int) returns (kept: Slice)
      requires Stored() && key in hits
      modifies this`hits, this`contents, Repr
      ensures Stored() && key in hits && kept == hits[key]
      ensures contents == old(contents)[key := Later(old(contents)[key], now - window)]
    {
      kept := DropUntil(hits[key], now - window);
      hits := hits[key := kept];
      contents := contents[key := Items(kept)];
    }

    method Push(key: Key, now: int)
      requires Stored() && key in hits
      modifies this`hits, this`contents, this`Repr, Repr
      ensures Stored() && old(Repr) <= Repr && fresh(Repr - old(Repr))
      ensures contents == old(contents)[key := old(contents)[key] + [now]]
    {
      var longer := Append(hits[key], now);
      hits := hits[key := longer];
      contents := contents[key := Items(longer)];
      Repr := Repr + {longer.buf};
    }

    method Visit(key: Key, now: int) returns (allowed: bool)
      requires Stored()
      modifies this`hits, this`contents, this`Repr, Repr
      ensures Stored() && old(Repr) <= Repr && fresh(Repr - old(Repr))
      ensures allowed == (|Later(Slot(old(contents), key), now - window)| < limit)
      ensures contents == old(contents)[key := Visited(Slot(old(contents), key), now, limit, window)]
    {
      ghost var before, times := contents, Slot(contents, key);
      var slice := Fetch(key);
      slice := Compact(key, now);
      Overwrite(before, key, times, Later(times, now - window));
      allowed := slice.len < limit;
      if allowed {
        Push(key, now);
        Overwrite(before, key, Later(times, now - window), Later(times, now - window) + [now]);
      }
    }

    /** Brings the history up to date with a visit. */
    ghost method Note(before: Slots, key: Key, now: int, allowed: bool)
      requires now >= clock && AllAnswer(before, log, clock - window, limit)
      requires allowed == (|Later(Slot(before, key), now - window)| < limit)
      requires contents == before[key := Visited(Slot(before, key), now, limit, window)]
      requires AllLetInByRule(log, limit, window)
      modifies this`log, this`clock
      ensures AllAnswer(contents, log, clock - window, limit) && AllLetInByRule(log, limit, window)
      ensures allowed == Permitted(old(log), key, now, limit, window)
      ensures log == Record(old(log), Hit(key, now), limit, window) && clock == now
    {
      VisitKeepsAnswers(before, contents, log, clock - window, Hit(key, now), limit, window);
      RecordLetsAllInByRule(log, Hit(key, now), limit, window);
      log := Record(log, Hit(key, now), limit, window);
      clock := now;
    }

    /** For a clock that does not run backwards the verdict is the one the full history gives. */
    method Allow(key: Key, now: int) returns (allowed: bool)
      requires Valid() && now >= clock
      modifies this, Repr
      ensures Valid() && fresh(Repr - old(Repr))
      ensures allowed == Permitted(old(log), key, now, limit, window)
      ensures log == Record(old(log), Hit(key, now), limit, window) && clock == now
      ensures allowed
              <==> |set i: nat | i < |old(log)| && old(log)[i].key == key && old(log)[i].at > now - window| < limit
      ensures log == if allowed then old(log) + [Hit(key, now)] else old(log)
      ensures contents == old(contents)[key := Visited(Slot(old(contents), key), now, limit, window)]
    {
      ghost var before := contents;
      RecentAreCounted(log, key, now - window);
      allowed := Visit(key, now);
      Note(before, key, now, allowed);
    }

    /** No key's slice ever has more cells in use than the limit allows hits. */
    lemma SlotsStayShort(key: Key)
      requires Valid() && key in hits
      ensures hits[key].len <= if limit > 0 then limit else 0
    {
      assert Answers(Slot(contents, key), TimesOf(log, key), clock - window, limit);
      assert Holds(hits[key], contents[key]);
    }

    /** Of everything this limiter ever admitted for a key, no interval of the window's length holds more than the
        limit. */
    lemma AdmitsAtMostLimit(key: Key, from: int)
      requires Valid()
      ensures Within(TimesOf(log, key), from, from + window) <= if limit > 0 then limit else 0
    {
      assert LetInByRule(TimesOf(log, key), limit, window);
      WindowHoldsAtMostLimit(TimesOf(log, key), limit, window, from);
    }
  }
}
