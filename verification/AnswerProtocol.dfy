/**
 Who answers an offer (samples/Common.c, handleOffer, onIceCandidateHandler, respondWithAnswer). The offer
 handler and the gathering callback run on different threads; gathering starts inside setLocalDescription
 (src/source/PeerConnection/PeerConnection.c:1577). A later answer that reaches the session can restart it
 (src/source/PeerConnection/PeerConnection.c:1460-1467).
 */
module AnswerProtocol {

  /** The statement of handleOffer that comes next. */
  datatype Handler =
    | SetRemote
    | StoreTrickle
    | SetLocal
    | GatherStarted  // inside setLocalDescription, gathering is on its way
    | TestTrickle
    | CreateAnswer
    | SendAnswer
    | Handled
    | Failed

  /** What the gathering thread does. */
  datatype Gatherer =
    | Idle
    | Gathering
    | Completing     // called back with NULL, has not yet tested the trickle flag
    | CreatingAnswer
    | SendingAnswer
    | Answered
    | Silent         // completed without an answer

  /**
   `peerTrickles` is what the offer says, `remoteCanTrickleIce` what the session has stored of it.
   `again` says that gathering was restarted while its callback was still under way.
   */
  datatype State = State(
    peerTrickles: bool,
    remoteCanTrickleIce: bool,
    handler: Handler,
    gatherer: Gatherer,
    again: bool,
    answers: nat,
    candidates: nat)

  /**
   `ok` is the outcome of the call the step makes; an answer may go out (`sent`) although the call
   that sends it reports a failure, because metrics are read after sending.
   */
  datatype Action =
    | StepHandler(ok: bool, sent: bool)
    | StepGatherer(ok: bool, sent: bool)
    | FoundCandidate(ok: bool)
    | GatheringDone
    | Restart  // a later answer brings the session new ICE credentials

  /** A new master session: its trickle flag is false until the offer is handled. */
  function Init(peerTrickles: bool): State {
    State(peerTrickles, false, SetRemote, Idle, false, 0, 0)
  }

  predicate Enabled(s: State, a: Action) {
    match a
    case StepHandler(_, _) => !s.handler.Handled? && !s.handler.Failed?
    case StepGatherer(_, _) => InCallback(s.gatherer)
    case FoundCandidate(_) => s.gatherer.Gathering?
    case GatheringDone => s.gatherer.Gathering?
    case Restart => s.handler.Handled?
  }

  function HandlerStep(s: State, ok: bool, sent: bool): State {
    match s.handler
    case SetRemote => s.(handler := if ok then StoreTrickle else Failed)
    case StoreTrickle => s.(handler := SetLocal, remoteCanTrickleIce := s.peerTrickles)
    case SetLocal => if ok then s.(handler := GatherStarted, gatherer := Gathering) else s.(handler := Failed)
    case GatherStarted => s.(handler := if ok then TestTrickle else Failed)
    case TestTrickle => s.(handler := if s.remoteCanTrickleIce then CreateAnswer else Handled)
    case CreateAnswer => s.(handler := if ok then SendAnswer else Failed)
    case SendAnswer =>
      s.(handler := if ok && sent then Handled else Failed, answers := if sent then s.answers + 1 else s.answers)
    case Handled => s
    case Failed => s
  }

  /** Nothing follows the sending call in the callback, so only whether the answer went out matters there. */
  function GathererStep(s: State, ok: bool, sent: bool): State {
    match s.gatherer
    case Completing => if s.remoteCanTrickleIce then CallbackEnds(s, Silent) else s.(gatherer := CreatingAnswer)
    case CreatingAnswer => if ok then s.(gatherer := SendingAnswer) else CallbackEnds(s, Silent)
    case SendingAnswer =>
      if sent then CallbackEnds(s.(answers := s.answers + 1), Answered) else CallbackEnds(s, Silent)
    case _ => s
  }

  function CallbackEnds(s: State, end: Gatherer): State {
    s.(gatherer := if s.again then Gathering else end, again := false)
  }

  predicate InCallback(g: Gatherer) {
    g.Completing? || g.CreatingAnswer? || g.SendingAnswer?
  }

  /** There is one gathering thread: gathering starts over at once, or when the callback under way has ended. */
  function RestartStep(s: State): State {
    if InCallback(s.gatherer) then s.(again := true) else s.(gatherer := Gathering)
  }

  function Step(s: State, a: Action): State
    requires Enabled(s, a)
  {
    match a
    case StepHandler(ok, sent) => HandlerStep(s, ok, sent)
    case StepGatherer(ok, sent) => GathererStep(s, ok, sent)
    case FoundCandidate(ok) => if s.remoteCanTrickleIce && ok then s.(candidates := s.candidates + 1) else s
    case GatheringDone => s.(gatherer := Completing)
    case Restart => RestartStep(s)
  }

  /** How many more answers a peer that does not trickle can get without a further restart. */
  function Due(s: State): nat {
    (if s.gatherer == Idle || s.gatherer.Gathering? || InCallback(s.gatherer) then 1 else 0)
    + if s.again then 1 else 0
  }

  ghost predicate Inv(s: State) {
    && (s.handler.SetRemote? || s.handler.StoreTrickle? ==>
        !s.remoteCanTrickleIce && s.gatherer == Idle && s.answers == 0)
    && (s.handler.SetLocal? ==> s.gatherer == Idle)
    && (s.gatherer != Idle || s.handler.SetLocal? || s.handler.Handled? ==> s.remoteCanTrickleIce == s.peerTrickles)
    && (s.handler.GatherStarted? || s.handler.TestTrickle? || s.handler.CreateAnswer? || s.handler.SendAnswer?
        ==> s.gatherer != Idle)
    && (s.handler.Handled? ==> s.gatherer != Idle)
    && (s.gatherer == Idle ==> s.answers == 0)
    && (s.handler.CreateAnswer? || s.handler.SendAnswer? ==> s.remoteCanTrickleIce)
    && (s.gatherer.CreatingAnswer? || s.gatherer.SendingAnswer? || s.gatherer.Answered? ==> !s.remoteCanTrickleIce)
    && (s.remoteCanTrickleIce && !s.handler.Failed? ==> s.answers == if s.handler.Handled? then 1 else 0)
    && (s.remoteCanTrickleIce ==> s.answers <= 1)
    && (s.candidates > 0 ==> s.gatherer != Idle && s.remoteCanTrickleIce)
    && (s.remoteCanTrickleIce ==> s.peerTrickles)
    && (s.again ==> InCallback(s.gatherer) && s.handler.Handled?)
  }

  /** Bookkeeping for a peer that does not trickle, after `restarts` restarts. */
  ghost predicate Bounded(s: State, restarts: nat) {
    && (!s.remoteCanTrickleIce ==> s.answers + Due(s) <= 1 + restarts)
    && (restarts == 0 ==> !s.again)
    && (restarts == 0 && !s.remoteCanTrickleIce ==> s.answers == if s.gatherer.Answered? then 1 else 0)
  }

  predicate IsRun(s: State, run: seq<Action>)
    decreases run
  {
    run == [] || (Enabled(s, run[0]) && IsRun(Step(s, run[0]), run[1..]))
  }

  function Run(s: State, run: seq<Action>): State
    requires IsRun(s, run)
    decreases run
  {
    if run == [] then s else Run(Step(s, run[0]), run[1..])
  }

  function Restarts(run: seq<Action>): nat {
    if run == [] then 0 else (if run[0].Restart? then 1 else 0) + Restarts(run[1..])
  }

  lemma StepKeepsInv(s: State, a: Action)
    requires Inv(s) && Enabled(s, a)
    ensures Inv(Step(s, a)) && Step(s, a).peerTrickles == s.peerTrickles
  {
  }

  lemma StepKeepsBounded(s: State, a: Action, restarts: nat)
    requires Inv(s) && Bounded(s, restarts) && Enabled(s, a)
    ensures Bounded(Step(s, a), if a.Restart? then restarts + 1 else restarts)
  {
  }

  lemma {:induction false} RunKeepsInv(s: State, run: seq<Action>, restarts: nat)
    requires Inv(s) && Bounded(s, restarts) && IsRun(s, run)
    ensures Inv(Run(s, run)) && Bounded(Run(s, run), restarts + Restarts(run))
    ensures Run(s, run).peerTrickles == s.peerTrickles
    decreases run
  {
    if run != [] {
      StepKeepsInv(s, run[0]);
      StepKeepsBounded(s, run[0], restarts);
      RunKeepsInv(Step(s, run[0]), run[1..], if run[0].Restart? then restarts + 1 else restarts);
    }
  }

  /**
   In every interleaving of the offer handler with the gathering thread, and with later answers that
   restart gathering: a peer that trickles gets at most one answer, from the handler only, and has got
   it when the handler runs to its end. A peer that does not trickle gets its answers at the end of
   gathering, at most one more than there were restarts, and no candidates.
   */
  lemma AtMostOneAnswer(peerTrickles: bool, run: seq<Action>)
    requires IsRun(Init(peerTrickles), run)
    ensures var s, restarts := Run(Init(peerTrickles), run), Restarts(run);
      && (peerTrickles ==>
        && s.answers <= 1
        && (s.handler == Handled ==> s.answers == 1)
        && (s.answers == 1 ==> s.handler == Handled || s.handler == Failed)
        && s.gatherer != Answered)
      && (!peerTrickles ==>
        && s.answers <= 1 + restarts
        && s.candidates == 0
        && (restarts == 0 ==> (s.answers == 1 <==> s.gatherer == Answered)))
  {
    RunKeepsInv(Init(peerTrickles), run, 0);
  }

  /** The handler is at a call whose failure ends it. */
  predicate AtCall(h: Handler) {
    h.SetRemote? || h.SetLocal? || h.GatherStarted? || h.CreateAnswer? || h.SendAnswer?
  }

  /** A call of the handler fails, or its answer does not go out. */
  predicate CallFails(s: State, a: Action) {
    a.StepHandler? && AtCall(s.handler) && (!a.ok || (s.handler.SendAnswer? && !a.sent))
  }

  predicate SomeCallFails(s: State, run: seq<Action>)
    requires IsRun(s, run)
    decreases run
  {
    run != [] && (CallFails(s, run[0]) || SomeCallFails(Step(s, run[0]), run[1..]))
  }

  /** The offer handler fails exactly if one of its calls does. */
  lemma {:induction false} HandlerFailsIff(s: State, run: seq<Action>)
    requires IsRun(s, run)
    ensures Run(s, run).handler == Failed <==> s.handler == Failed || SomeCallFails(s, run)
    decreases run
  {
    if run != [] {
      HandlerFailsIff(Step(s, run[0]), run[1..]);
    }
  }

  /**
   The gathering thread sends an answer only after createAnswer has succeeded; and an answer more is
   out exactly if the sender of that step got it out.
   */
  lemma StepAnswers(s: State, a: Action)
    requires Inv(s) && Enabled(s, a)
    ensures var s' := Step(s, a);
      && (s'.gatherer.SendingAnswer? <==>
          || (s.gatherer.SendingAnswer? && !a.StepGatherer?)
          || (s.gatherer.CreatingAnswer? && a.StepGatherer? && a.ok))
      && (s'.answers == s.answers || s'.answers == s.answers + 1)
      && (s'.answers == s.answers + 1 <==>
          || (a.StepGatherer? && s.gatherer.SendingAnswer? && a.sent)
          || (a.StepHandler? && s.handler.SendAnswer? && a.sent))
  {
  }

  /** The candidates found in a run that could be sent. */
  function Sendable(run: seq<Action>): nat {
    if run == [] then 0 else (if run[0] == FoundCandidate(true) then 1 else 0) + Sendable(run[1..])
  }

  lemma {:induction false} CandidatesFrom(s: State, run: seq<Action>)
    requires Inv(s) && IsRun(s, run)
    ensures Run(s, run).candidates == s.candidates + if s.peerTrickles then Sendable(run) else 0
    decreases run
  {
    if run != [] {
      StepKeepsInv(s, run[0]);
      CandidatesFrom(Step(s, run[0]), run[1..]);
    }
  }

  /** A peer that trickles is sent exactly the candidates that were found and could be sent; any other peer none. */
  lemma CandidatesAreSent(peerTrickles: bool, run: seq<Action>)
    requires IsRun(Init(peerTrickles), run)
    ensures Run(Init(peerTrickles), run).candidates == if peerTrickles then Sendable(run) else 0
  {
    CandidatesFrom(Init(peerTrickles), run);
  }

  /** A peer that does not trickle, its offer handled and gathering under way. */
  ghost predicate GathersForPeer(s: State) {
    s.handler.Handled? && s.gatherer.Gathering? && !s.remoteCanTrickleIce && !s.again
  }

  const ONE_ANSWER := [GatheringDone, StepGatherer(true, true), StepGatherer(true, true), StepGatherer(true, true)]

  const HANDLE := [StepHandler(true, true), StepHandler(true, true)]
  const FINISH := [StepHandler(true, true), StepHandler(true, true), StepHandler(true, true)]

  lemma {:induction false} RunConcat(s: State, a: seq<Action>, b: seq<Action>)
    requires IsRun(s, a) && IsRun(Run(s, a), b)
    ensures IsRun(s, a + b) && Run(s, a + b) == Run(Run(s, a), b)
    ensures Restarts(a + b) == Restarts(a) + Restarts(b)
    decreases a
  {
    if a == [] {
      assert a + b == b;
    } else {
      assert (a + b)[1..] == a[1..] + b;
      RunConcat(Step(s, a[0]), a[1..], b);
    }
  }

  lemma OneMoreAnswer(s: State)
    requires GathersForPeer(s)
    ensures IsRun(s, ONE_ANSWER)
    ensures Run(s, ONE_ANSWER) == s.(gatherer := Answered, answers := s.answers + 1)
    ensures Restarts(ONE_ANSWER) == 0
  {
  }

  lemma {:induction false} AnswerEachRestart(s: State, n: nat) returns (run: seq<Action>)
    requires GathersForPeer(s)
    ensures IsRun(s, run) && Restarts(run) == n && Run(s, run).answers == s.answers + n + 1
    decreases n
  {
    run := ONE_ANSWER;
    OneMoreAnswer(s);
    if n > 0 {
      var s' := Step(Run(s, run), Restart);
      var rest := AnswerEachRestart(s', n - 1);
      assert ([Restart] + rest)[1..] == rest;
      RunConcat(s, run, [Restart] + rest);
      run := run + ([Restart] + rest);
    }
  }

  /** The bound is reached: for every n, a peer that does not trickle can get n + 1 answers with n restarts. */
  lemma RestartsAnswerAgain(n: nat) returns (run: seq<Action>)
    ensures IsRun(Init(false), run) && Restarts(run) == n
    ensures Run(Init(false), run).answers == n + 1
  {
    OfferRun();
    RunConcat(Init(false), HANDLE, FINISH);
    var rest := AnswerEachRestart(Run(Init(false), HANDLE + FINISH), n);
    RunConcat(Init(false), HANDLE + FINISH, rest);
    run := HANDLE + FINISH + rest;
  }

  lemma OfferRun()
    ensures IsRun(Init(false), HANDLE) && Restarts(HANDLE) == 0
    ensures var s := Run(Init(false), HANDLE);
      IsRun(s, FINISH) && Restarts(FINISH) == 0 && GathersForPeer(Run(s, FINISH)) && Run(s, FINISH).answers == 0
  {
    var s := Run(Init(false), HANDLE);
    assert s == Init(false).(handler := SetLocal);
    assert Run(s, FINISH) == s.(handler := Handled, gatherer := Gathering);
  }
}
