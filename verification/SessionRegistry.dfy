/**
 The session registry and signaling state machine of samples/Common.c, as a value.

 A step is one critical section under sampleConfigurationObjLock (a signaling message, the scan or
 the queue expiry of a cleanup pass) or one change of a session's terminate flag. What the peer
 connection library answers (whether an offer is handled, which candidates are accepted) is part of
 the event, so a run is a sequence of events.
 */
module SessionRegistry {
  import opened Samples
  import opened CallLog
  import opened PendingQueues
  import SessionScan

  type PeerId = string

  datatype Role = Master | Viewer

  datatype Session = Session(peerId: PeerId, terminated: bool)

  /**
   `list`, `table` and `pending` are the three structures of SampleConfiguration. `sessions` holds
   every session ever allocated, by handle. `clock` is the latest time seen, `arrived` the number of
   candidate messages received. `base` is bookkeeping for the statements about candidates: how many
   candidates of a key had been settled when a session was put into the table under that key.
   */
  datatype State = State(
    role: Role,
    list: seq<Handle>,
    table: map<Key, Handle>,
    pending: seq<PendingQueue>,
    sessions: seq<Session>,
    clock: nat,
    arrived: nat,
    log: seq<Call>,
    base: map<(Key, Handle), nat>)

  /** How far createSampleStreamingSession and handleOffer get. */
  datatype OfferResult = CreateFailed | DescribeFailed | AnswerFailed | Handled

  /** `rejected` holds the candidates on which handleRemoteCandidate fails. */
  datatype Event =
    | Offer(peer: PeerId, result: OfferResult, rejected: set<nat>)
    | Answer(peer: PeerId, described: bool, rejected: set<nat>)
    | Candidate(peer: PeerId, now: nat, ok: bool)
    | Unhandled(peer: PeerId)
    | Terminate(session: Handle)
    | Scan
    | Expire(now: nat)
    | StartViewer(peer: PeerId)

  function Init(role: Role): State {
    State(role, [], map[], [], [], 0, 0, [], map[])
  }

  // ----- calls

  function Ids(msgs: seq<Message>): seq<nat> {
    if msgs == [] then [] else [msgs[0].id] + Ids(msgs[1..])
  }

  /** handleRemoteCandidate fails on this message. */
  predicate Refused(m: Message, rejected: set<nat>) {
    m.kind == CandidateMessage && m.id in rejected
  }

  predicate Rejects(msgs: seq<Message>, rejected: set<nat>) {
    exists m :: m in msgs && Refused(m, rejected)
  }

  /** freeMessageQueue on a queue that still holds `msgs`. */
  function Discards(k: Key, msgs: seq<Message>): seq<Call> {
    if msgs == [] then [] else [Discarded(k, msgs[0].id)] + Discards(k, msgs[1..])
  }

  /** submitPendingIceCandidate, and freeMessageQueue on what is left after a rejected candidate. */
  function DrainCalls(k: Key, h: Handle, msgs: seq<Message>, rejected: set<nat>): seq<Call> {
    if msgs == [] then []
    else if msgs[0].kind != CandidateMessage then DrainCalls(k, h, msgs[1..], rejected)
    else if msgs[0].id in rejected then [Submitted(k, h, msgs[0].id, false)] + Discards(k, msgs[1..])
    else [Submitted(k, h, msgs[0].id, true)] + DrainCalls(k, h, msgs[1..], rejected)
  }

  function DropCalls(queues: seq<PendingQueue>): seq<Call> {
    if queues == [] then [] else Discards(queues[0].key, queues[0].messages) + DropCalls(queues[1..])
  }

  function FreeCalls(hs: seq<Handle>): seq<Call> {
    if hs == [] then [] else [Freed(hs[0])] + FreeCalls(hs[1..])
  }

  // ----- steps

  function Terminated(s: State): set<Handle> {
    set h | h in s.list && h < |s.sessions| && s.sessions[h].terminated
  }

  function KeyOf(crc: PeerId -> Key, s: State, h: Handle): Key {
    if h < |s.sessions| then crc(s.sessions[h].peerId) else 0
  }

  function OfferCalls(s: State, k: Key, result: OfferResult, rejected: set<nat>): seq<Call> {
    var h := |s.sessions|;
    var msgs := MessagesFor(s.pending, k);
    if k in s.table then []
    else if |s.list| == MAX_SESSIONS then Discards(k, msgs)
    else match result
      case CreateFailed => [Freed(h)]
      case DescribeFailed => [Described(h, false), Freed(h)]
      case AnswerFailed => [Described(h, true), Freed(h)]
      case Handled =>
        [Described(h, true)] + DrainCalls(k, h, msgs, rejected)
        + if Rejects(msgs, rejected) then [Freed(h)] else []
  }

  function OfferStep(s: State, k: Key, peer: PeerId, result: OfferResult, rejected: set<nat>): State {
    var h := |s.sessions|;
    var s1 := s.(log := s.log + OfferCalls(s, k, result, rejected));
    if k in s.table then s1
    else if |s.list| == MAX_SESSIONS then s1.(pending := Without(s.pending, k))
    else
      var s2 := s1.(sessions := s.sessions + [Session(peer, false)]);
      if result != Handled then s2
      else
        var s3 := Register(s, s2, k, h);
        if Rejects(MessagesFor(s.pending, k), rejected) then s3 else s3.(list := s.list + [h])
  }

  /** hashTablePut of `h` under `k`, and removal of the key's pending queue. */
  function Register(s: State, s1: State, k: Key, h: Handle): State {
    s1.(table := s.table[k := h], pending := Without(s.pending, k), base := s.base[(k, h) := |Settled(s.log, k)|])
  }

  function AnswerCalls(s: State, k: Key, described: bool, rejected: set<nat>): seq<Call>
    requires s.list != []
  {
    var h := s.list[0];
    [Described(h, described)]
    + if !described || k in s.table then [] else DrainCalls(k, h, MessagesFor(s.pending, k), rejected)
  }

  function AnswerStep(s: State, k: Key, described: bool, rejected: set<nat>): State
    requires s.list != []
  {
    var s1 := s.(log := s.log + AnswerCalls(s, k, described, rejected));
    if !described || k in s.table then s1 else Register(s, s1, k, s.list[0])
  }

  function CandidateCalls(s: State, k: Key, ok: bool): seq<Call> {
    [Arrived(k, s.arrived)] + if k in s.table then [Submitted(k, s.table[k], s.arrived, ok)] else []
  }

  function CandidateStep(s: State, k: Key, now: nat, ok: bool): State {
    var s1 := s.(clock := now, arrived := s.arrived + 1, log := s.log + CandidateCalls(s, k, ok));
    if k in s.table then s1
    else s1.(pending := Queued(s.pending, k, now, Message(CandidateMessage, s.arrived)))
  }

  function ScanStep(crc: PeerId -> Key, s: State): State {
    var freed := SessionScan.Removed(s.list, Terminated(s));
    s.(list := SessionScan.Scan(s.list, Terminated(s)),
       table := s.table - (set h | h in freed :: KeyOf(crc, s, h)),
       log := s.log + FreeCalls(freed))
  }

  function ExpireStep(s: State, now: nat): State {
    s.(clock := now, pending := Kept(s.pending, now), log := s.log + DropCalls(Dropped(s.pending, now)))
  }

  /** An answer is for the first session of the list, whatever the role; only a master runs the cleanup loop. */
  predicate Enabled(s: State, e: Event) {
    match e
    case Offer(_, _, _) => true
    case Answer(_, _, _) => s.list != []
    case Candidate(_, now, _) => s.clock <= now
    case Unhandled(_) => true
    case Terminate(h) => h in s.list && h < |s.sessions|
    case Scan => s.role == Master
    case Expire(now) => s.role == Master && s.clock <= now
    case StartViewer(_) => s.role == Viewer && |s.list| < MAX_SESSIONS
  }

  function Step(crc: PeerId -> Key, s: State, e: Event): State
    requires Enabled(s, e)
  {
    match e
    case Offer(peer, result, rejected) => OfferStep(s, crc(peer), peer, result, rejected)
    case Answer(peer, described, rejected) => AnswerStep(s, crc(peer), described, rejected)
    case Candidate(peer, now, ok) => CandidateStep(s, crc(peer), now, ok)
    case Unhandled(_) => s
    case Terminate(h) => s.(sessions := s.sessions[h := s.sessions[h].(terminated := true)])
    case Scan => ScanStep(crc, s)
    case Expire(now) => ExpireStep(s, now)
    case StartViewer(peer) => s.(sessions := s.sessions + [Session(peer, false)], list := s.list + [|s.sessions|])
  }

  /** A candidate queued for the key of this offer or answer is rejected while the queue is drained. */
  predicate DrainFails(crc: PeerId -> Key, s: State, e: Event) {
    match e
    case Offer(peer, result, rejected) =>
      && crc(peer) !in s.table && |s.list| != MAX_SESSIONS && result == Handled
      && Rejects(MessagesFor(s.pending, crc(peer)), rejected)
    case Answer(peer, described, rejected) =>
      described && crc(peer) !in s.table && Rejects(MessagesFor(s.pending, crc(peer)), rejected)
    case _ => false
  }

  /** A pass over the list now would free session `h`. */
  predicate PassFrees(s: State, h: Handle) {
    h in SessionScan.Removed(s.list, Terminated(s))
  }

  // ----- runs

  predicate IsRun(crc: PeerId -> Key, s: State, es: seq<Event>)
    decreases es
  {
    es == [] || (Enabled(s, es[0]) && IsRun(crc, Step(crc, s, es[0]), es[1..]))
  }

  function Run(crc: PeerId -> Key, s: State, es: seq<Event>): State
    requires IsRun(crc, s, es)
    decreases es
  {
    if es == [] then s else Run(crc, Step(crc, s, es[0]), es[1..])
  }

  /** Every drain of the run succeeds. */
  predicate DrainsSucceed(crc: PeerId -> Key, s: State, es: seq<Event>)
    requires IsRun(crc, s, es)
    decreases es
  {
    es == [] || (!DrainFails(crc, s, es[0]) && DrainsSucceed(crc, Step(crc, s, es[0]), es[1..]))
  }
}
