/**
 The periodic stats callback (samples/Common.c, getIceCandidatePairStatsCallback) reports, per session, how
 far each counter moved since the last report, in UINT64 arithmetic.
 */
module MetricsHistory {
  import opened Samples

  const UINT64_RANGE := 0x1_0000_0000_0000_0000

  /** Packets sent and received, bytes sent and received, packets discarded on send. */
  const COUNTERS := 5

  type Counters = c: seq<nat> | |c| == COUNTERS && forall i :: 0 <= i < COUNTERS ==> c[i] < UINT64_RANGE
    witness [0, 0, 0, 0, 0]

  /** The metrics of one session; `reported` sums up every delta reported so far. */
  datatype History = History(prevTs: nat, prev: Counters, reported: seq<nat>)

  datatype Sample = Sample(timestamp: nat, counters: Counters)

  function Delta(now: nat, prev: nat): nat {
    (now - prev) % UINT64_RANGE
  }

  /** Whole seconds since the last report; a sample within the same second is skipped. */
  predicate Counts(h: History, x: Sample) {
    Delta(x.timestamp, h.prevTs) / HUNDREDS_OF_NANOS_IN_A_SECOND > 0
  }

  function Reported(h: History, x: Sample): History
    requires |h.reported| == COUNTERS
  {
    if Counts(h, x)
    then
      var sums := seq(COUNTERS, i requires 0 <= i < COUNTERS => h.reported[i] + Delta(x.counters[i], h.prev[i]));
      History(x.timestamp, x.counters, sums)
    else h
  }

  /** What was reported in all is the last recorded counter, up to the width of the counter. */
  ghost predicate Telescopes(h: History) {
    && |h.reported| == COUNTERS
    && forall i :: 0 <= i < COUNTERS ==> h.reported[i] % UINT64_RANGE == h.prev[i]
  }

  /** Exactly, as long as no counter has wrapped or gone back. */
  ghost predicate TelescopesExactly(h: History) {
    |h.reported| == COUNTERS && forall i :: 0 <= i < COUNTERS ==> h.reported[i] == h.prev[i]
  }

  /** No counter of a sample that counts is below the one recorded before. */
  ghost predicate GoesOn(h: History, x: Sample) {
    Counts(h, x) ==> forall i :: 0 <= i < COUNTERS ==> h.prev[i] <= x.counters[i]
  }

  lemma ReportTelescopes(h: History, x: Sample)
    requires Telescopes(h)
    ensures Telescopes(Reported(h, x))
  {
    if Counts(h, x) {
      forall i | 0 <= i < COUNTERS
        ensures Reported(h, x).reported[i] % UINT64_RANGE == x.counters[i]
      {
        SumTelescopes(h.reported[i], h.prev[i], x.counters[i]);
      }
    }
  }

  /** Adding the delta of a counter to a sum that ends at its old value makes it end at the new one. */
  lemma SumTelescopes(sum: nat, prev: nat, now: nat)
    requires prev < UINT64_RANGE && now < UINT64_RANGE
    requires sum % UINT64_RANGE == prev
    ensures (sum + Delta(now, prev)) % UINT64_RANGE == now
  {
    var q := sum / UINT64_RANGE;
    assert sum == UINT64_RANGE * q + prev;
    if prev <= now {
      assert Delta(now, prev) == now - prev;
      assert sum + Delta(now, prev) == UINT64_RANGE * q + now;
    } else {
      assert Delta(now, prev) == now - prev + UINT64_RANGE;
      assert sum + Delta(now, prev) == UINT64_RANGE * (q + 1) + now;
    }
  }

  /** The sum never falls below the counter, and exceeds it for good once a counter has gone back. */
  ghost predicate NotBelow(h: History) {
    |h.reported| == COUNTERS && forall i :: 0 <= i < COUNTERS ==> h.prev[i] <= h.reported[i]
  }

  lemma ReportExactly(h: History, x: Sample)
    requires NotBelow(h)
    ensures NotBelow(Reported(h, x))
    ensures TelescopesExactly(Reported(h, x)) <==> TelescopesExactly(h) && GoesOn(h, x)
  {
  }

  /** A callback sees the list in its current order, and the sessions whose metrics call succeeds. */
  datatype Callback = Callback(busy: bool, list: seq<nat>, samples: map<nat, Sample>)

  /** The sample of session `h` that a callback takes into account. */
  predicate Sampled(c: Callback, h: nat) {
    !c.busy && h in c.list && h in c.samples
  }

  function After(h: nat, history: History, c: Callback): History
    requires |history.reported| == COUNTERS
  {
    if Sampled(c, h) then Reported(history, c.samples[h]) else history
  }

  class StatsTimer {
    var histories: map<nat, History>

    ghost predicate Valid()
      reads this
    {
      forall h :: h in histories ==> |histories[h].reported| == COUNTERS
    }

    constructor ()
      ensures Valid() && histories == map[]
    {
      histories := map[];
    }

    /** createSampleStreamingSession */
    method AddSession(h: nat, now: nat)
      requires Valid()
      modifies this
      ensures Valid()
      ensures histories == old(histories)[h := NewHistory(now)]
    {
      histories := histories[h := NewHistory(now)];
    }

    /** getIceCandidatePairStatsCallback */
    method StatsCallback(c: Callback)
      requires Valid()
      requires forall h :: h in c.list ==> h in histories
      requires Distinct(c.list)
      modifies this
      ensures Valid() && histories.Keys == old(histories).Keys
      ensures forall h :: h in histories ==> histories[h] == After(h, old(histories)[h], c)
    {
      if c.busy {
        return;
      }
      ghost var before := histories;
      for i := 0 to |c.list|
        invariant Valid() && histories.Keys == before.Keys
        invariant forall h :: h in histories ==>
          histories[h] == if h in c.list[..i] && h in c.samples then Reported(before[h], c.samples[h]) else before[h]
      {
        var h := c.list[i];
        assert c.list[..i + 1] == c.list[..i] + [h];
        assert h in c.list && h !in c.list[..i];
        if h in c.samples && Counts(histories[h], c.samples[h]) {
          histories := histories[h := Reported(histories[h], c.samples[h])];
        }
      }
      assert c.list[..|c.list|] == c.list;
    }
  }

  function NewHistory(now: nat): History {
    History(now, [0, 0, 0, 0, 0], [0, 0, 0, 0, 0])
  }

  /** The history of session `h` after any callbacks, wherever it is in the list at each of them. */
  function AfterAll(h: nat, history: History, cs: seq<Callback>): History
    requires |history.reported| == COUNTERS
    decreases cs
  {
    if cs == [] then history else AfterAll(h, After(h, history, cs[0]), cs[1..])
  }

  /** No counter of the session ever goes back at a callback that reports it. */
  ghost predicate AlwaysGoesOn(h: nat, history: History, cs: seq<Callback>)
    requires |history.reported| == COUNTERS
    decreases cs
  {
    cs == [] ||
    ((Sampled(cs[0], h) ==> GoesOn(history, cs[0].samples[h])) && AlwaysGoesOn(h, After(h, history, cs[0]), cs[1..]))
  }

  lemma {:induction false} CallbacksTelescope(h: nat, history: History, cs: seq<Callback>)
    requires Telescopes(history) && NotBelow(history)
    ensures Telescopes(AfterAll(h, history, cs))
    ensures TelescopesExactly(AfterAll(h, history, cs)) <==> TelescopesExactly(history) && AlwaysGoesOn(h, history, cs)
    decreases cs
  {
    if cs != [] {
      if Sampled(cs[0], h) {
        ReportTelescopes(history, cs[0].samples[h]);
        ReportExactly(history, cs[0].samples[h]);
      }
      CallbacksTelescope(h, After(h, history, cs[0]), cs[1..]);
    }
  }

  /**
   Over any run of callbacks, with busy locks, failed metrics calls, intervals below a second and moves
   within the list, the deltas reported for a session add up to its last recorded counters modulo
   2^64, and exactly iff no counter went back.
   */
  lemma ReportsTelescope(h: nat, now: nat, cs: seq<Callback>)
    ensures Telescopes(AfterAll(h, NewHistory(now), cs))
    ensures TelescopesExactly(AfterAll(h, NewHistory(now), cs)) <==> AlwaysGoesOn(h, NewHistory(now), cs)
  {
    CallbacksTelescope(h, NewHistory(now), cs);
  }

  // ----- when a sample is reported

  /** A sample a second or more after the last report is reported, and recorded as the last one; any other is not. */
  lemma ReportedAfterASecond(h: History, x: Sample)
    requires |h.reported| == COUNTERS && h.prevTs <= x.timestamp < UINT64_RANGE
    ensures var h' := Reported(h, x);
      if x.timestamp - h.prevTs >= 10_000_000
      then h'.prevTs == x.timestamp && h'.prev == x.counters
      else h' == h
  {
    assert Delta(x.timestamp, h.prevTs) == x.timestamp - h.prevTs;
  }

  /** A callback that finds the lock busy, the session not listed, or no metrics of it, leaves its history alone. */
  lemma NotSampled(h: nat, history: History, c: Callback)
    requires |history.reported| == COUNTERS
    requires c.busy || h !in c.list || h !in c.samples
    ensures After(h, history, c) == history
  {
  }

  /** The time of the last sample of session `h`, or `start` if there is none. */
  function LastSample(h: nat, start: nat, cs: seq<Callback>): nat
    decreases cs
  {
    if cs == [] then start
    else LastSample(h, if Sampled(cs[0], h) then cs[0].samples[h].timestamp else start, cs[1..])
  }

  /** Samples of session `h` come in order of time, from `start` on. */
  ghost predicate InTime(h: nat, start: nat, cs: seq<Callback>)
    decreases cs
  {
    cs == [] ||
    (if Sampled(cs[0], h)
     then start <= cs[0].samples[h].timestamp < UINT64_RANGE && InTime(h, cs[0].samples[h].timestamp, cs[1..])
     else InTime(h, start, cs[1..]))
  }

  lemma {:induction false} ReportsKeepUp(h: nat, history: History, start: nat, cs: seq<Callback>)
    requires |history.reported| == COUNTERS
    requires history.prevTs <= start < history.prevTs + 10_000_000
    requires InTime(h, start, cs)
    ensures AfterAll(h, history, cs).prevTs <= LastSample(h, start, cs) < AfterAll(h, history, cs).prevTs + 10_000_000
    decreases cs
  {
    if cs != [] {
      if Sampled(cs[0], h) {
        ReportedAfterASecond(history, cs[0].samples[h]);
        ReportsKeepUp(h, After(h, history, cs[0]), cs[0].samples[h].timestamp, cs[1..]);
      } else {
        ReportsKeepUp(h, history, start, cs[1..]);
      }
    }
  }

  /** Over any run of callbacks, what was reported last of a session is less than a second behind its last sample. */
  lemma NeverASecondBehind(h: nat, now: nat, cs: seq<Callback>)
    requires InTime(h, now, cs)
    ensures var prevTs := AfterAll(h, NewHistory(now), cs).prevTs;
      prevTs <= LastSample(h, now, cs) < prevTs + 10_000_000
  {
    ReportsKeepUp(h, NewHistory(now), now, cs);
  }
}
