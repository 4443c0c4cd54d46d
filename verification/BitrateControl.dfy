/**
 The congestion control loop: per-session bandwidth estimation callbacks propose a bitrate
 (samples/Common.c, sampleSenderBandwidthEstimationHandler); the frame callback reads the encoder that
 all sessions share and applies a proposal (samples/kvsWebrtcClientMasterGstSample.c, on_new_sample).
 A proposal of 0 means that there is none. Doubles are modelled as reals.
 */
module BitrateControl {
  import opened Samples

  const UINT32_RANGE := 0x1_0000_0000

  /** TWCC_BITRATE_ADJUSTMENT_INTERVAL_MS, in hundreds of nanoseconds */
  const INTERVAL := 1000 * 10_000

  const MIN_VIDEO := 512
  const MAX_VIDEO := 2048000
  const MIN_AUDIO := 4000
  const MAX_AUDIO := 650000

  datatype Media = Video | Audio

  function Least(m: Media): nat {
    if m == Video then MIN_VIDEO else MIN_AUDIO
  }

  function Most(m: Media): nat {
    if m == Video then MAX_VIDEO else MAX_AUDIO
  }

  /** One value per medium. */
  datatype Both<T> = Both(video: T, audio: T) {
    function At(m: Media): T {
      if m == Video then video else audio
    }

    function With(m: Media, x: T): Both<T> {
      if m == Video then this.(video := x) else this.(audio := x)
    }
  }

  /** currentXBitrate and newXBitrate of one medium; `current` is 0 until the first frame. */
  datatype Rate = Rate(current: nat, proposed: nat)

  /** `adjustments` are the times of all adjustments of the session. */
  datatype Session = Session(lastAdjustment: nat, loss: real, rates: Both<Rate>, adjustments: seq<nat>)

  /** A frame callback that has read the encoder and not yet taken the session's lock. */
  datatype Reading = Idle | Read(session: nat, media: Media, bitrate: nat)

  /** `adjusted` counts the adjustments of all sessions. */
  datatype State = State(encoder: Both<nat>, sessions: map<nat, Session>, reading: Reading, adjusted: nat)

  datatype Event =
    | Join(session: nat)
    | Leave(session: nat)
    | Estimate(session: nat, tx: nat, rx: nat, now: nat)
    | ReadEncoder(session: nat, media: Media)
    | Apply

  // ----- one estimate

  /** txPacketsCnt - rxPacketsCnt and the percentage, in UINT32 arithmetic. */
  function PercentLost(tx: nat, rx: nat): nat
    requires tx < UINT32_RANGE && rx < UINT32_RANGE
  {
    var lost := (tx - rx) % UINT32_RANGE;
    if tx > 0 then (lost * 100 % UINT32_RANGE) / tx else 0
  }

  function Truncate(x: real): nat {
    if x < 0.0 then 0 else x.Floor
  }

  function Min(x: real, y: real): real {
    if x < y then x else y
  }

  function Max(x: real, y: real): real {
    if x > y then x else y
  }

  /** Five percent more up to the limit, or the average loss less down to the limit. */
  function NextBitrate(m: Media, current: nat, loss: real): nat {
    if loss <= 5.0
    then Truncate(Min(current as real * 1.05, Most(m) as real))
    else Truncate(Max(current as real * (1.0 - loss / 100.0), Least(m) as real))
  }

  /** EMA_ACCUMULATOR_GET_NEXT with weight `alpha` on the new value. */
  function Average(alpha: real, loss: real, percent: nat): real {
    alpha * percent as real + (1.0 - alpha) * loss
  }

  ghost predicate ZeroOrWithin(m: Media, x: nat) {
    x == 0 || Least(m) <= x <= Most(m)
  }

  /**
   What the next bitrate is, without real division: the greatest one that is neither above the upper
   limit nor more than five percent above the current one, or the current one less the loss, rounded
   down, or else the lower limit.
   */
  predicate IsNext(m: Media, current: nat, loss: real, next: nat) {
    if loss <= 5.0
    then
      && next <= Most(m) && 100 * next <= 105 * current
      && (next < Most(m) ==> 105 * current < 100 * (next + 1))
    else
      var less := current as real * (100.0 - loss);
      && Least(m) <= next && less < 100.0 * (next + 1) as real
      && (Least(m) < next ==> 100.0 * next as real <= less)
  }

  lemma NextBitrateIs(m: Media, current: nat, loss: real, next: nat)
    ensures next == NextBitrate(m, current, loss) <==> IsNext(m, current, loss, next)
  {
    if loss <= 5.0 {
      FloorIs(Min(current as real * 1.05, Most(m) as real), next);
    } else {
      var less := current as real * (1.0 - loss / 100.0);
      assert 100.0 * less == current as real * (100.0 - loss);
      FloorIs(Max(less, Least(m) as real), next);
    }
  }

  lemma NextBitrateMeets(m: Media, current: nat, loss: real)
    ensures IsNext(m, current, loss, NextBitrate(m, current, loss))
    ensures ZeroOrWithin(m, current) ==> Follows(m, current, loss, NextBitrate(m, current, loss))
  {
    NextBitrateIs(m, current, loss, NextBitrate(m, current, loss));
    if ZeroOrWithin(m, current) {
      NextBitrateBounds(m, current, loss);
    }
  }

  lemma FloorIs(x: real, n: nat)
    requires x >= 0.0
    ensures Truncate(x) == n <==> n as real <= x < (n + 1) as real
  {
  }

  /**
   `next` is within the limits or 0, at most five percent above `current` or else the lower limit, not
   below it if the loss is at most five percent, and not above it if the loss is more. It is 0 only if
   nothing is known of the encoder yet.
   */
  ghost predicate Follows(m: Media, current: nat, loss: real, next: nat) {
    && ZeroOrWithin(m, next)
    && (next == 0 <==> current == 0 && loss <= 5.0)
    && next as real <= Max(current as real * 1.05, Least(m) as real)
    && (loss <= 5.0 ==> next >= current)
    && (loss > 5.0 && current > 0 ==> next <= current)
  }

  /** A bitrate within the limits stays within them, and grows by at most five percent, whatever the loss. */
  lemma NextBitrateBounds(m: Media, current: nat, loss: real)
    requires ZeroOrWithin(m, current)
    ensures Follows(m, current, loss, NextBitrate(m, current, loss))
  {
  }

  /** A dividend that wraps around gives another quotient. */
  lemma WrapShows(a: nat, d: nat)
    requires 0 < d < UINT32_RANGE <= a
    ensures a % UINT32_RANGE / d != a / d
  {
    var r := a % UINT32_RANGE;
    var p, q := r / d, a / d;
    assert p * d <= r && a < q * d + d;
    assert r + UINT32_RANGE <= a;
  }

  /**
   The figure is the percentage of lost packets, rounded down, exactly if no more packets were
   acknowledged than sent and the hundredfold of the lost ones fits 32 bits.
   */
  lemma PercentLostIff(tx: nat, rx: nat)
    requires 0 < tx < UINT32_RANGE && rx < UINT32_RANGE
    ensures PercentLost(tx, rx) == (tx - rx) * 100 / tx <==> rx <= tx && (tx - rx) * 100 < UINT32_RANGE
    ensures rx <= tx && (tx - rx) * 100 < UINT32_RANGE ==> PercentLost(tx, rx) <= 100
  {
    if rx <= tx {
      var lost: nat := tx - rx;
      Unwrapped(lost);
      assert PercentLost(tx, rx) == lost * 100 % UINT32_RANGE / tx;
      if lost * 100 < UINT32_RANGE {
        Unwrapped(lost * 100);
        DivideBound(lost * 100, 100, tx);
      } else {
        WrapShows(lost * 100, tx);
      }
    } else {
      NegativeQuotient((tx - rx) * 100, tx);
    }
  }

  lemma Unwrapped(a: nat)
    requires a < UINT32_RANGE
    ensures a % UINT32_RANGE == a
  {
  }

  lemma NegativeQuotient(a: int, d: nat)
    requires a < 0 < d
    ensures a / d < 0
  {
  }

  lemma DivideBound(a: nat, b: nat, c: nat)
    requires c > 0 && a <= b * c
    ensures a / c <= b
  {
    var q := a / c;
    assert q * c <= b * c;
  }

  /**
   One packet more received than sent in an interval reads as a loss far above 100 percent, and the
   loss of everything as none at all.
   */
  lemma PercentLostWraps()
    ensures PercentLost(10, 11) == 429496719
    ensures PercentLost(42949673, 0) == 0
  {
  }

  // ----- steps

  function Init(video: nat, audio: nat): State {
    State(Both(video, audio), map[], Idle, 0)
  }

  /**
   The frame callback holds the list lock from reading to applying, so that there is one at a time
   and its session stays; estimates of one session come in order of time.
   */
  predicate Enabled(s: State, e: Event) {
    match e
    case Join(i) => i !in s.sessions
    case Leave(i) => s.reading.Read? ==> s.reading.session != i
    case Estimate(i, tx, rx, now) =>
      tx < UINT32_RANGE && rx < UINT32_RANGE && i in s.sessions && s.sessions[i].lastAdjustment <= now
    case ReadEncoder(i, m) => s.reading == Idle && i in s.sessions
    case Apply => s.reading.Read? && s.reading.session in s.sessions
  }

  function NewSession(): Session {
    Session(0, 0.0, Both(Rate(0, 0), Rate(0, 0)), [])
  }

  predicate Adjusts(s: State, e: Event)
    requires Enabled(s, e)
  {
    e.Estimate? && e.now - s.sessions[e.session].lastAdjustment >= INTERVAL
  }

  function Propose(m: Media, r: Rate, loss: real): Rate {
    r.(proposed := NextBitrate(m, r.current, loss))
  }

  function EstimateStep(alpha: real, s: State, i: nat, percent: nat, now: nat): State
    requires i in s.sessions && s.sessions[i].lastAdjustment <= now
  {
    var c := s.sessions[i];
    var loss := Average(alpha, c.loss, percent);
    if now - c.lastAdjustment < INTERVAL then s.(sessions := s.sessions[i := c.(loss := loss)])
    else
      var rates := Both(Propose(Video, c.rates.video, loss), Propose(Audio, c.rates.audio, loss));
      s.(sessions := s.sessions[i := Session(now, loss, rates, c.adjustments + [now])], adjusted := s.adjusted + 1)
  }

  /** What the frame callback does under the session's lock, having read `bitrate` from the encoder. */
  function ApplyStep(s: State, i: nat, m: Media, bitrate: nat): State
    requires i in s.sessions
  {
    var c := s.sessions[i];
    var proposed := c.rates.At(m).proposed;
    s.(encoder := if proposed != 0 then s.encoder.With(m, proposed) else s.encoder,
       sessions := s.sessions[i := c.(rates := c.rates.With(m, Rate(bitrate, 0)))],
       reading := Idle)
  }

  function Step(alpha: real, s: State, e: Event): State
    requires Enabled(s, e)
  {
    match e
    case Join(i) => s.(sessions := s.sessions[i := NewSession()])
    case Leave(i) => s.(sessions := s.sessions - {i})
    case Estimate(i, tx, rx, now) => EstimateStep(alpha, s, i, PercentLost(tx, rx), now)
    case ReadEncoder(i, m) => s.(reading := Read(i, m, s.encoder.At(m)))
    case Apply => ApplyStep(s, s.reading.session, s.reading.media, s.reading.bitrate)
  }

  // ----- the average loss

  function Pow(x: real, k: nat): real {
    if k == 0 then 1.0 else x * Pow(x, k - 1)
  }

  /** The average lies strictly between the old average and the new percentage, unless they agree. */
  lemma AverageBetween(alpha: real, loss: real, percent: nat)
    requires 0.0 < alpha < 1.0
    ensures loss < percent as real ==> loss < Average(alpha, loss, percent) < percent as real
    ensures loss > percent as real ==> loss > Average(alpha, loss, percent) > percent as real
    ensures loss == percent as real ==> Average(alpha, loss, percent) == loss
  {
    var d := percent as real - loss;
    assert Average(alpha, loss, percent) == loss + alpha * d;
    assert Average(alpha, loss, percent) == percent as real - (1.0 - alpha) * d;
    SameSign(alpha, d);
    SameSign(1.0 - alpha, d);
  }

  lemma SameSign(a: real, d: real)
    requires a > 0.0
    ensures d > 0.0 ==> a * d > 0.0
    ensures d < 0.0 ==> a * d < 0.0
    ensures d == 0.0 ==> a * d == 0.0
  {
  }

  /** The average after the reports `percents`. */
  function AverageAll(alpha: real, loss: real, percents: seq<nat>): real
    decreases percents
  {
    if percents == [] then loss else AverageAll(alpha, Average(alpha, loss, percents[0]), percents[1..])
  }

  /** Equal reports take the average to their percentage: each leaves the part 1 - alpha of the distance. */
  lemma {:induction false} RepeatedReports(alpha: real, loss: real, percents: seq<nat>, p: nat)
    requires forall i :: 0 <= i < |percents| ==> percents[i] == p
    ensures AverageAll(alpha, loss, percents) == p as real + Pow(1.0 - alpha, |percents|) * (loss - p as real)
    decreases percents
  {
    if percents != [] {
      var next := Average(alpha, loss, p);
      RepeatedReports(alpha, next, percents[1..], p);
      assert next - p as real == (1.0 - alpha) * (loss - p as real);
      Regroup(Pow(1.0 - alpha, |percents| - 1), 1.0 - alpha, loss - p as real);
    }
  }

  lemma Regroup(a: real, b: real, c: real)
    ensures a * (b * c) == (b * a) * c
  {
  }

  /** The percentages reported for session `i` in a run. */
  function Reports(es: seq<Event>, i: nat): seq<nat> {
    if es == [] then []
    else
      (if es[0].Estimate? && es[0].session == i && es[0].tx < UINT32_RANGE && es[0].rx < UINT32_RANGE
       then [PercentLost(es[0].tx, es[0].rx)] else [])
      + Reports(es[1..], i)
  }

  lemma StepAverages(alpha: real, s: State, e: Event, i: nat)
    requires Enabled(s, e) && i in s.sessions && e != Leave(i)
    ensures i in Step(alpha, s, e).sessions
    ensures Step(alpha, s, e).sessions[i].loss == AverageAll(alpha, s.sessions[i].loss, Reports([e], i))
  {
    assert [e][1..] == [];
  }

  lemma {:induction false} AverageAllConcat(alpha: real, loss: real, a: seq<nat>, b: seq<nat>)
    ensures AverageAll(alpha, loss, a + b) == AverageAll(alpha, AverageAll(alpha, loss, a), b)
    decreases a
  {
    if a == [] {
      assert a + b == b;
    } else {
      assert (a + b)[1..] == a[1..] + b;
      AverageAllConcat(alpha, Average(alpha, loss, a[0]), a[1..], b);
    }
  }

  lemma ReportsFirst(es: seq<Event>, i: nat)
    requires es != []
    ensures Reports(es, i) == Reports([es[0]], i) + Reports(es[1..], i)
  {
    assert [es[0]][1..] == [];
  }

  /** Over any run in which it stays, the average of a session is that of its own reports, in their order. */
  lemma {:induction false} LossIsAverage(alpha: real, s: State, es: seq<Event>, i: nat)
    requires IsRun(alpha, s, es) && i in s.sessions && Leave(i) !in es
    ensures i in Run(alpha, s, es).sessions
    ensures Run(alpha, s, es).sessions[i].loss == AverageAll(alpha, s.sessions[i].loss, Reports(es, i))
    decreases es
  {
    if es != [] {
      var e, s1 := es[0], Step(alpha, s, es[0]);
      assert e in es;
      StepAverages(alpha, s, e, i);
      LossIsAverage(alpha, s1, es[1..], i);
      ReportsFirst(es, i);
      AverageAllConcat(alpha, s.sessions[i].loss, Reports([e], i), Reports(es[1..], i));
    }
  }

  /** A session that joins has no history: its average is that of its reports from 0 on, and nothing is proposed. */
  lemma LossSinceJoin(alpha: real, s: State, i: nat, es: seq<Event>)
    requires Enabled(s, Join(i)) && IsRun(alpha, Step(alpha, s, Join(i)), es) && Leave(i) !in es
    ensures i in Run(alpha, Step(alpha, s, Join(i)), es).sessions
    ensures Run(alpha, Step(alpha, s, Join(i)), es).sessions[i].loss == AverageAll(alpha, 0.0, Reports(es, i))
    ensures var c := Step(alpha, s, Join(i)).sessions[i];
      c.adjustments == [] && c.rates.video == Rate(0, 0) && c.rates.audio == Rate(0, 0)
  {
    LossIsAverage(alpha, Step(alpha, s, Join(i)), es, i);
  }

  /**
   An estimate counts in the average. Within a second of the last adjustment it does nothing else;
   after that it proposes, for both media, the next bitrate for the new average.
   */
  lemma EstimateEffect(alpha: real, s: State, i: nat, percent: nat, now: nat)
    requires i in s.sessions && s.sessions[i].lastAdjustment <= now
    ensures var c, s' := s.sessions[i], EstimateStep(alpha, s, i, percent, now);
      && s'.sessions.Keys == s.sessions.Keys && s'.encoder == s.encoder && s'.reading == s.reading
      && (forall x :: x in s.sessions && x != i ==> s'.sessions[x] == s.sessions[x])
      && var c' := s'.sessions[i];
        && c'.loss == AverageAll(alpha, c.loss, [percent])
        && (now - c.lastAdjustment < 10_000_000 ==> c' == c.(loss := c'.loss))
        && (now - c.lastAdjustment >= 10_000_000 ==>
          && c'.lastAdjustment == now && c'.adjustments == c.adjustments + [now]
          && forall m: Media ::
              && c'.rates.At(m).current == c.rates.At(m).current
              && IsNext(m, c.rates.At(m).current, c'.loss, c'.rates.At(m).proposed))
  {
    var c := s.sessions[i];
    var loss := Average(alpha, c.loss, percent);
    assert [percent][1..] == [];
    assert AverageAll(alpha, c.loss, [percent]) == loss;
    NextBitrateMeets(Video, c.rates.video.current, loss);
    NextBitrateMeets(Audio, c.rates.audio.current, loss);
    forall m: Media
      ensures IsNext(m, c.rates.At(m).current, loss, NextBitrate(m, c.rates.At(m).current, loss))
    {
      NextBitrateMeets(m, c.rates.At(m).current, loss);
    }
  }

  // ----- the loop stays within the limits

  ghost predicate RateWithin(m: Media, r: Rate) {
    ZeroOrWithin(m, r.current) && ZeroOrWithin(m, r.proposed)
  }

  ghost predicate SessionWithin(c: Session) {
    RateWithin(Video, c.rates.video) && RateWithin(Audio, c.rates.audio)
  }

  ghost predicate Within(s: State) {
    && MIN_VIDEO <= s.encoder.video <= MAX_VIDEO
    && MIN_AUDIO <= s.encoder.audio <= MAX_AUDIO
    && (forall i :: i in s.sessions ==> SessionWithin(s.sessions[i]))
    && (s.reading.Read? ==> Least(s.reading.media) <= s.reading.bitrate <= Most(s.reading.media))
  }

  lemma StepStaysWithin(alpha: real, s: State, e: Event)
    requires Enabled(s, e) && Within(s)
    ensures Within(Step(alpha, s, e))
  {
    match e
    case Estimate(i, tx, rx, now) =>
      var c, loss := s.sessions[i], Average(alpha, s.sessions[i].loss, PercentLost(tx, rx));
      NextBitrateBounds(Video, c.rates.video.current, loss);
      NextBitrateBounds(Audio, c.rates.audio.current, loss);
    case _ =>
  }

  // ----- and grows no faster than five percent per adjustment

  /** `bound` raised by five percent `k` times. */
  function Raised(bound: real, k: nat): real
    decreases k
  {
    if k == 0 then bound else Raised(1.05 * bound, k - 1)
  }

  lemma {:induction false} RaisedIsPow(bound: real, k: nat)
    ensures Raised(bound, k) == bound * Pow(1.05, k)
    decreases k
  {
    if k > 0 {
      RaisedIsPow(1.05 * bound, k - 1);
      var p := Pow(1.05, k - 1);
      assert 1.05 * bound * p == bound * (1.05 * p);
    }
  }

  /** Everything that can reach the encoder of medium `m` is at most `bound`. */
  ghost predicate AtMost(s: State, m: Media, bound: real)
  {
    && s.encoder.At(m) as real <= bound
    && (forall i :: i in s.sessions ==>
      s.sessions[i].rates.At(m).current as real <= bound && s.sessions[i].rates.At(m).proposed as real <= bound)
    && (s.reading.Read? && s.reading.media == m ==> s.reading.bitrate as real <= bound)
  }

  lemma EstimateGrowth(alpha: real, s: State, i: nat, percent: nat, now: nat, m: Media, bound: real)
    requires i in s.sessions && s.sessions[i].lastAdjustment <= now && SessionWithin(s.sessions[i])
    requires AtMost(s, m, bound) && Least(m) as real <= bound
    ensures AtMost(EstimateStep(alpha, s, i, percent, now), m,
      if now - s.sessions[i].lastAdjustment >= INTERVAL then 1.05 * bound else bound)
  {
    var c := s.sessions[i];
    NextBitrateBounds(m, c.rates.At(m).current, Average(alpha, c.loss, percent));
  }

  lemma StepGrowth(alpha: real, s: State, e: Event, m: Media, bound: real)
    requires Enabled(s, e) && Within(s)
    requires AtMost(s, m, bound) && Least(m) as real <= bound
    ensures Step(alpha, s, e).adjusted == s.adjusted + if Adjusts(s, e) then 1 else 0
    ensures AtMost(Step(alpha, s, e), m, if Adjusts(s, e) then 1.05 * bound else bound)
  {
    if e.Estimate? {
      EstimateGrowth(alpha, s, e.session, PercentLost(e.tx, e.rx), e.now, m, bound);
    }
  }

  // ----- runs

  predicate IsRun(alpha: real, s: State, es: seq<Event>)
    decreases es
  {
    es == [] ||
    (Enabled(s, es[0]) && IsRun(alpha, Step(alpha, s, es[0]), es[1..]))
  }

  function Run(alpha: real, s: State, es: seq<Event>): State
    requires IsRun(alpha, s, es)
    decreases es
  {
    if es == [] then s else Run(alpha, Step(alpha, s, es[0]), es[1..])
  }

  /**
   Under any interleaving of estimates and frame callbacks, with any number of sessions sharing the
   encoder and any loss reports, the encoder stays within its limits and so does every proposal.
   */
  lemma {:induction false} LoopStaysWithin(alpha: real, s: State, es: seq<Event>)
    requires IsRun(alpha, s, es) && Within(s)
    ensures Within(Run(alpha, s, es))
    decreases es
  {
    if es != [] {
      StepStaysWithin(alpha, s, es[0]);
      LoopStaysWithin(alpha, Step(alpha, s, es[0]), es[1..]);
    }
  }

  /** After k adjustments of whichever sessions, the encoder is at most 1.05^k times what it was. */
  lemma {:induction false} LoopGrowth(alpha: real, s: State, es: seq<Event>, m: Media, bound: real)
    requires IsRun(alpha, s, es) && Within(s)
    requires AtMost(s, m, bound) && Least(m) as real <= bound
    ensures var s' := Run(alpha, s, es);
      && s.adjusted <= s'.adjusted
      && s'.encoder.At(m) as real <= Raised(bound, s'.adjusted - s.adjusted)
    decreases es
  {
    if es != [] {
      var s1 := Step(alpha, s, es[0]);
      var bound' := if Adjusts(s, es[0]) then 1.05 * bound else bound;
      StepStaysWithin(alpha, s, es[0]);
      StepGrowth(alpha, s, es[0], m, bound);
      LoopGrowth(alpha, s1, es[1..], m, bound');
    }
  }

  /** From an encoder within its limits, after k adjustments in all. */
  lemma LoopGrowthFromStart(alpha: real, video: nat, audio: nat, es: seq<Event>, m: Media)
    requires MIN_VIDEO <= video <= MAX_VIDEO && MIN_AUDIO <= audio <= MAX_AUDIO
    requires IsRun(alpha, Init(video, audio), es)
    ensures var s := Run(alpha, Init(video, audio), es);
      && Within(s)
      && s.encoder.At(m) as real <= Init(video, audio).encoder.At(m) as real * Pow(1.05, s.adjusted)
  {
    LoopStaysWithin(alpha, Init(video, audio), es);
    var bound := Init(video, audio).encoder.At(m) as real;
    LoopGrowth(alpha, Init(video, audio), es, m, bound);
    RaisedIsPow(bound, Run(alpha, Init(video, audio), es).adjusted);
  }

  // ----- adjustments of one session are an interval apart

  ghost predicate Spaced(times: seq<nat>) {
    forall i, j :: 0 <= i < j < |times| ==> times[j] - times[i] >= (j - i) * INTERVAL
  }

  ghost predicate SpacedUntil(c: Session) {
    Spaced(c.adjustments) && (c.adjustments != [] ==> c.adjustments[|c.adjustments| - 1] == c.lastAdjustment)
  }

  /** Of each session, adjustments that are n apart in order are at least n intervals apart in time. */
  ghost predicate AllSpaced(s: State) {
    forall i :: i in s.sessions ==> SpacedUntil(s.sessions[i])
  }

  lemma SpacedSnoc(times: seq<nat>, now: nat)
    requires Spaced(times) && (times != [] ==> now - times[|times| - 1] >= INTERVAL)
    ensures Spaced(times + [now])
  {
    var n := |times|;
    forall i | 0 <= i < n
      ensures now - times[i] >= (n - i) * INTERVAL
    {
      assert times[n - 1] - times[i] >= (n - 1 - i) * INTERVAL;
    }
  }

  lemma StepIsSpaced(alpha: real, s: State, e: Event)
    requires Enabled(s, e) && AllSpaced(s)
    ensures AllSpaced(Step(alpha, s, e))
  {
    if Adjusts(s, e) {
      SpacedSnoc(s.sessions[e.session].adjustments, e.now);
    }
  }

  /** Every run keeps the adjustments of each session apart. */
  lemma {:induction false} AdjustmentsAreSpaced(alpha: real, s: State, es: seq<Event>)
    requires IsRun(alpha, s, es) && AllSpaced(s)
    ensures AllSpaced(Run(alpha, s, es))
    decreases es
  {
    if es != [] {
      StepIsSpaced(alpha, s, es[0]);
      AdjustmentsAreSpaced(alpha, Step(alpha, s, es[0]), es[1..]);
    }
  }

  // ----- the callbacks, in place

  /** One session's turn in on_new_sample: read the encoder, note it, apply and clear the proposal. */
  function FrameStep(s: State, i: nat, m: Media): State
    requires i in s.sessions
  {
    ApplyStep(s, i, m, s.encoder.At(m))
  }

  function Frames(s: State, listed: seq<nat>, m: Media): (s': State)
    requires forall i :: i in listed ==> i in s.sessions
    ensures s'.sessions.Keys == s.sessions.Keys
  {
    if listed == [] then s
    else
      var n := |listed| - 1;
      FrameStep(Frames(s, listed[..n], m), listed[n], m)
  }

  /** The proposal of the last session of the list that has one, or else what the encoder is set to. */
  function LastProposal(s: State, listed: seq<nat>, m: Media): nat
    requires forall i :: i in listed ==> i in s.sessions
  {
    if listed == [] then s.encoder.At(m)
    else
      var n := |listed| - 1;
      var proposed := s.sessions[listed[n]].rates.At(m).proposed;
      if proposed != 0 then proposed else LastProposal(s, listed[..n], m)
  }

  /** Nothing of a session but the rate of one medium has changed. */
  ghost predicate OnlyRateOf(m: Media, c: Session, c': Session) {
    && c'.loss == c.loss && c'.lastAdjustment == c.lastAdjustment && c'.adjustments == c.adjustments
    && forall m' :: m' != m ==> c'.rates.At(m') == c.rates.At(m')
  }

  /**
   One frame: among sessions that share the encoder the last proposal wins, every proposal is used
   up, each session notes what the encoder was at its turn, sessions not listed and the other medium
   are left alone.
   */
  lemma LastProposalWins(s: State, listed: seq<nat>, m: Media)
    requires forall i :: i in listed ==> i in s.sessions
    requires Distinct(listed)
    ensures var s' := Frames(s, listed, m);
      && s'.sessions.Keys == s.sessions.Keys
      && s'.encoder.At(m) == LastProposal(s, listed, m)
      && (forall m' :: m' != m ==> s'.encoder.At(m') == s.encoder.At(m'))
      && (forall j :: 0 <= j < |listed| ==>
          s'.sessions[listed[j]].rates.At(m) == Rate(LastProposal(s, listed[..j], m), 0))
      && (forall i :: i in listed ==> OnlyRateOf(m, s.sessions[i], s'.sessions[i]))
      && (forall i :: i in s.sessions && i !in listed ==> s'.sessions[i] == s.sessions[i])
  {
    FramesApply(s, listed, m);
    forall j | 0 <= j < |listed|
      ensures Noted(m, s.sessions[listed[j]], Frames(s, listed, m).sessions[listed[j]], LastProposal(s, listed[..j], m))
    {
      FramesRecord(s, listed, m, j);
    }
  }

  lemma {:induction false} FramesApply(s: State, listed: seq<nat>, m: Media)
    requires forall i :: i in listed ==> i in s.sessions
    ensures var s' := Frames(s, listed, m);
      && s'.sessions.Keys == s.sessions.Keys
      && (forall m' :: m' != m ==> s'.encoder.At(m') == s.encoder.At(m'))
      && (forall i :: i in s.sessions && i !in listed ==> s'.sessions[i] == s.sessions[i])
      && (Distinct(listed) ==> s'.encoder.At(m) == LastProposal(s, listed, m))
  {
    if listed != [] {
      var n := |listed| - 1;
      FramesApply(s, listed[..n], m);
      assert Distinct(listed) ==> listed[n] !in listed[..n];
      assert forall i :: i in listed <==> i in listed[..n] || i == listed[n];
    }
  }

  /** The session has noted the bitrate of the encoder, and its proposal is used up. */
  ghost predicate Noted(m: Media, c: Session, c': Session, bitrate: nat) {
    c'.rates.At(m) == Rate(bitrate, 0) && OnlyRateOf(m, c, c')
  }

  /** At its turn, the `j`-th session notes what the sessions before it have made of the encoder. */
  lemma {:induction false} FramesRecord(s: State, listed: seq<nat>, m: Media, j: nat)
    requires forall i :: i in listed ==> i in s.sessions
    requires Distinct(listed) && j < |listed|
    ensures Noted(m, s.sessions[listed[j]], Frames(s, listed, m).sessions[listed[j]], LastProposal(s, listed[..j], m))
    decreases |listed|
  {
    var n := |listed| - 1;
    var before := listed[..n];
    assert Frames(s, listed, m) == FrameStep(Frames(s, before, m), listed[n], m);
    if j < n {
      assert before[j] == listed[j] && before[..j] == listed[..j];
      FramesRecord(s, before, m, j);
      FrameLeaves(Frames(s, before, m), listed[n], m, listed[j]);
    } else {
      assert listed[n] !in before;
      FramesApply(s, before, m);
      FrameRecords(Frames(s, before, m), listed[n], m);
    }
  }

  lemma FrameLeaves(s: State, i: nat, m: Media, x: nat)
    requires i in s.sessions && x in s.sessions && x != i
    ensures FrameStep(s, i, m).sessions[x] == s.sessions[x]
  {
  }

  lemma FrameRecords(s: State, i: nat, m: Media)
    requires i in s.sessions
    ensures Noted(m, s.sessions[i], FrameStep(s, i, m).sessions[i], s.encoder.At(m))
  {
  }

  /** What a frame callback has read is what the encoder is set to until it applies. */
  ghost predicate ReadingCurrent(s: State) {
    s.reading.Read? ==> s.reading.bitrate == s.encoder.At(s.reading.media)
  }

  /**
   A frame callback that applies after any estimates in between: the session notes the encoder's
   bitrate, its proposal, if there is one, becomes the new bitrate and is used up.
   */
  ghost predicate Applies(s: State, s': State) {
    && s.reading.Read? && s'.reading == Idle && s'.sessions.Keys == s.sessions.Keys
    && s.reading.session in s.sessions
    && var i, m := s.reading.session, s.reading.media;
      && s'.sessions[i].rates.At(m) == Rate(s.encoder.At(m), 0)
      && OnlyRateOf(m, s.sessions[i], s'.sessions[i])
      && s'.encoder.At(m) == (if s.sessions[i].rates.At(m).proposed != 0
                              then s.sessions[i].rates.At(m).proposed else s.encoder.At(m))
      && (forall m' :: m' != m ==> s'.encoder.At(m') == s.encoder.At(m'))
      && (forall x :: x in s.sessions && x != i ==> s'.sessions[x] == s.sessions[x])
  }

  lemma {:induction false} RunReadsCurrent(alpha: real, s: State, es: seq<Event>)
    requires IsRun(alpha, s, es) && ReadingCurrent(s)
    ensures ReadingCurrent(Run(alpha, s, es))
    decreases es
  {
    if es != [] {
      RunReadsCurrent(alpha, Step(alpha, s, es[0]), es[1..]);
    }
  }

  lemma FrameApplies(alpha: real, video: nat, audio: nat, es: seq<Event>)
    requires IsRun(alpha, Init(video, audio), es) && Enabled(Run(alpha, Init(video, audio), es), Apply)
    ensures var s := Run(alpha, Init(video, audio), es); Applies(s, Step(alpha, s, Apply))
  {
    RunReadsCurrent(alpha, Init(video, audio), es);
  }

  /** A frame, an estimate that adjusts, and a frame. */
  function Round(alpha: real, s: State, i: nat, m: Media, percent: nat, now: nat): State
    requires i in s.sessions && s.sessions[i].lastAdjustment <= now
  {
    FrameStep(EstimateStep(alpha, FrameStep(s, i, m), i, percent, now), i, m)
  }

  /** One round of the loop sets the encoder to the next bitrate for the new average loss. */
  lemma RoundFeedsBack(alpha: real, s: State, i: nat, m: Media, percent: nat, now: nat)
    requires i in s.sessions && s.sessions[i].rates.At(m).proposed == 0
    requires now - s.sessions[i].lastAdjustment >= 10_000_000
    requires Least(m) <= s.encoder.At(m) <= Most(m)
    ensures var s' := Round(alpha, s, i, m, percent, now);
      && i in s'.sessions && s'.sessions[i].lastAdjustment == now
      && s'.sessions[i].rates.At(m).proposed == 0
      && s'.sessions[i].loss == AverageAll(alpha, s.sessions[i].loss, [percent])
      && IsNext(m, s.encoder.At(m), s'.sessions[i].loss, s'.encoder.At(m))
      && Least(m) <= s'.encoder.At(m) <= Most(m)
  {
    var s1 := FrameStep(s, i, m);
    EstimateEffect(alpha, s1, i, percent, now);
    assert s1.sessions[i].rates.At(m).current == s.encoder.At(m);
    var s2 := EstimateStep(alpha, s1, i, percent, now);
    NextBitrateIs(m, s.encoder.At(m), s2.sessions[i].loss, s2.sessions[i].rates.At(m).proposed);
    NextBitrateBounds(m, s.encoder.At(m), s2.sessions[i].loss);
  }

  /** `n` rounds without loss, a second apart. */
  function Rounds(alpha: real, s: State, i: nat, m: Media, n: nat): State
    decreases n
  {
    if n == 0 || i !in s.sessions then s
    else Rounds(alpha, Round(alpha, s, i, m, 0, s.sessions[i].lastAdjustment + INTERVAL), i, m, n - 1)
  }

  /** Without loss, the loop takes the encoder to the upper limit, from wherever it is within the limits. */
  lemma {:induction false} LoopRecovers(alpha: real, s: State, i: nat, m: Media, n: nat)
    requires 0.0 < alpha < 1.0
    requires i in s.sessions && s.sessions[i].rates.At(m).proposed == 0 && 0.0 <= s.sessions[i].loss <= 5.0
    requires Least(m) <= s.encoder.At(m) <= Most(m)
    ensures s.encoder.At(m) + n <= Most(m) ==> Rounds(alpha, s, i, m, n).encoder.At(m) >= s.encoder.At(m) + n
    ensures s.encoder.At(m) + n >= Most(m) ==> Rounds(alpha, s, i, m, n).encoder.At(m) == Most(m)
    decreases n
  {
    if n > 0 {
      var now := s.sessions[i].lastAdjustment + INTERVAL;
      var s' := Round(alpha, s, i, m, 0, now);
      RoundFeedsBack(alpha, s, i, m, 0, now);
      AverageBetween(alpha, s.sessions[i].loss, 0);
      assert [0][1..] == [];
      assert s'.sessions[i].loss == Average(alpha, s.sessions[i].loss, 0);
      assert s'.encoder.At(m) == Most(m) || s'.encoder.At(m) >= s.encoder.At(m) + 1;
      LoopRecovers(alpha, s', i, m, n - 1);
    }
  }

  class SharedEncoder {
    var encoder: Both<nat>
    var sessions: map<nat, Session>
    ghost var adjusted: nat

    ghost function View(): State
      reads this
    {
      State(encoder, sessions, Idle, adjusted)
    }

    constructor (video: nat, audio: nat)
      ensures View() == Init(video, audio)
    {
      encoder, sessions, adjusted := Both(video, audio), map[], 0;
    }

    /** The section of the estimation callback that computes the new bitrates. */
    static method Adjust(rates: Both<Rate>, loss: real) returns (videoBitrate: nat, audioBitrate: nat)
      ensures IsNext(Video, rates.video.current, loss, videoBitrate)
      ensures IsNext(Audio, rates.audio.current, loss, audioBitrate)
      ensures ZeroOrWithin(Video, rates.video.current) ==> Follows(Video, rates.video.current, loss, videoBitrate)
      ensures ZeroOrWithin(Audio, rates.audio.current) ==> Follows(Audio, rates.audio.current, loss, audioBitrate)
    {
      videoBitrate, audioBitrate := rates.video.current, rates.audio.current;
      if loss <= 5.0 {
        videoBitrate := Truncate(Min(videoBitrate as real * 1.05, MAX_VIDEO as real));
        audioBitrate := Truncate(Min(audioBitrate as real * 1.05, MAX_AUDIO as real));
      } else {
        videoBitrate := Truncate(Max(videoBitrate as real * (1.0 - loss / 100.0), MIN_VIDEO as real));
        audioBitrate := Truncate(Max(audioBitrate as real * (1.0 - loss / 100.0), MIN_AUDIO as real));
      }
      assert videoBitrate == NextBitrate(Video, rates.video.current, loss);
      assert audioBitrate == NextBitrate(Audio, rates.audio.current, loss);
      NextBitrateMeets(Video, rates.video.current, loss);
      NextBitrateMeets(Audio, rates.audio.current, loss);
    }

    /** sampleSenderBandwidthEstimationHandler */
    method SenderBandwidthEstimation(alpha: real, i: nat, tx: nat, rx: nat, now: nat)
      requires Enabled(View(), Estimate(i, tx, rx, now))
      modifies this
      ensures View() == Step(alpha, old(View()), Estimate(i, tx, rx, now))
    {
      var c := sessions[i];
      var percentLost := PercentLost(tx, rx);
      var timeDiff := now - c.lastAdjustment;
      c := c.(loss := Average(alpha, c.loss, percentLost));
      sessions := sessions[i := c];
      if timeDiff < INTERVAL {
        return;
      }
      var videoBitrate, audioBitrate := Adjust(c.rates, c.loss);
      NextBitrateIs(Video, c.rates.video.current, c.loss, videoBitrate);
      NextBitrateIs(Audio, c.rates.audio.current, c.loss, audioBitrate);
      c := c.(rates := Both(c.rates.video.(proposed := videoBitrate), c.rates.audio.(proposed := audioBitrate)));
      c := c.(lastAdjustment := now, adjustments := c.adjustments + [now]);
      sessions := sessions[i := c];
      adjusted := adjusted + 1;
    }

    /** The loop of on_new_sample over the listed sessions. */
    method OnNewSample(listed: seq<nat>, m: Media)
      requires forall i :: i in listed ==> i in sessions
      modifies this
      ensures View() == Frames(old(View()), listed, m)
    {
      ghost var s := View();
      for j := 0 to |listed|
        invariant sessions.Keys == s.sessions.Keys
        invariant View() == Frames(s, listed[..j], m)
      {
        assert listed[..j + 1][..j] == listed[..j];
        var i := listed[j];
        assert i in listed;
        var bitrate, c := encoder.At(m), sessions[i];
        var proposed := c.rates.At(m).proposed;
        c := c.(rates := c.rates.With(m, Rate(bitrate, proposed)));
        if proposed != 0 {
          bitrate := proposed;
          c := c.(rates := c.rates.With(m, c.rates.At(m).(proposed := 0)));
          encoder := encoder.With(m, bitrate);
        }
        sessions := sessions[i := c];
      }
      assert listed[..|listed|] == listed;
    }
  }
}
