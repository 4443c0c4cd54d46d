/**
 The mutable session manager itself: the fixed array of sessions with its count, the table, the
 pending queues, and the critical sections of signalingMessageReceived and sessionCleanupWait that
 update them in place. Every method is proved to perform exactly the registry step of the same event.
 */
module SampleConfigurations {
  import opened Samples
  import opened CallLog
  import opened PendingQueues
  import opened SessionRegistry
  import SessionScan

  class SampleConfiguration {
    const role: Role
    const sampleStreamingSessionList: array<Handle>
    var streamingSessionCount: nat
    var pRtcPeerConnectionForRemoteClient: map<Key, Handle>
    var pPendingSignalingMessageForRemoteClient: seq<PendingQueue>
    var sessions: seq<Session>
    var clock: nat
    var arrived: nat
    ghost var log: seq<Call>
    ghost var base: map<(Key, Handle), nat>

    ghost predicate Valid()
      reads this, sampleStreamingSessionList
    {
      && sampleStreamingSessionList.Length == MAX_SESSIONS
      && streamingSessionCount <= MAX_SESSIONS
      && forall i :: 0 <= i < streamingSessionCount ==> sampleStreamingSessionList[i] < |sessions|
    }

    ghost function View(): State
      requires Valid()
      reads this, sampleStreamingSessionList
    {
      State(role, sampleStreamingSessionList[..streamingSessionCount], pRtcPeerConnectionForRemoteClient,
            pPendingSignalingMessageForRemoteClient, sessions, clock, arrived, log, base)
    }

    constructor (role: Role)
      ensures Valid() && View() == Init(role)
    {
      this.role := role;
      sampleStreamingSessionList := new Handle[MAX_SESSIONS](_ => 0);
      streamingSessionCount := 0;
      pRtcPeerConnectionForRemoteClient := map[];
      pPendingSignalingMessageForRemoteClient := [];
      sessions := [];
      clock, arrived, log, base := 0, 0, [], map[];
    }

    /** submitPendingIceCandidate: `rest` is what is still queued when a candidate is rejected. */
    method SubmitPendingIceCandidate(k: Key, h: Handle, messageQueue: seq<Message>, rejected: set<nat>)
      returns (ok: bool, rest: seq<Message>)
      modifies this`log
      ensures ok <==> !Rejects(messageQueue, rejected)
      ensures ok ==> rest == []
      ensures !ok ==> exists j ::
        && 0 <= j < |messageQueue| && rest == messageQueue[j + 1..]
        && Refused(messageQueue[j], rejected)
        && forall i :: 0 <= i < j ==> !Refused(messageQueue[i], rejected)
      ensures log + Discards(k, rest) == old(log) + DrainCalls(k, h, messageQueue, rejected)
    {
      ok, rest := true, messageQueue;
      ghost var n := 0;
      while ok && rest != []
        invariant n <= |messageQueue| && rest == messageQueue[n..]
        invariant ok ==> forall i :: 0 <= i < n ==> !Refused(messageQueue[i], rejected)
        invariant !ok ==> n > 0 && Refused(messageQueue[n - 1], rejected)
        invariant !ok ==> forall i :: 0 <= i < n - 1 ==> !Refused(messageQueue[i], rejected)
        invariant ok ==> log + DrainCalls(k, h, rest, rejected) == old(log) + DrainCalls(k, h, messageQueue, rejected)
        invariant !ok ==> log + Discards(k, rest) == old(log) + DrainCalls(k, h, messageQueue, rejected)
        decreases rest, ok
      {
        var m := rest[0];
        assert rest == [m] + rest[1..];
        rest := rest[1..];
        n := n + 1;
        if m.kind == CandidateMessage {
          ok := m.id !in rejected;
          log := log + [Submitted(k, h, m.id, ok)];
        }
      }
      if !ok {
        assert messageQueue[n - 1] in messageQueue;
      }
    }

    /** freeMessageQueue */
    ghost method FreeMessageQueue(k: Key, messages: seq<Message>)
      modifies this`log
      ensures log == old(log) + Discards(k, messages)
    {
      log := log + Discards(k, messages);
    }

    /** Look the pending queue of a key up and take it out. */
    method TakePending(k: Key) returns (found: bool, messages: seq<Message>)
      modifies this`pPendingSignalingMessageForRemoteClient
      ensures messages == MessagesFor(old(pPendingSignalingMessageForRemoteClient), k)
      ensures !found ==> messages == []
      ensures pPendingSignalingMessageForRemoteClient == Without(old(pPendingSignalingMessageForRemoteClient), k)
    {
      var queues := pPendingSignalingMessageForRemoteClient;
      var at, rest;
      found, at, rest := GetPendingMessageQueueForHash(queues, k, true);
      messages := if found then queues[at].messages else [];
      pPendingSignalingMessageForRemoteClient := rest;
    }

    /**
     What an offer and an answer have in common: put the session into the table, take the pending
     queue of the key and submit it. What is left of the queue after a rejected candidate is freed.
     */
    method PutAndDrain(k: Key, h: Handle, rejected: set<nat>) returns (ok: bool)
      modifies this`log, this`base, this`pRtcPeerConnectionForRemoteClient, this`pPendingSignalingMessageForRemoteClient
      ensures pRtcPeerConnectionForRemoteClient == old(pRtcPeerConnectionForRemoteClient)[k := h]
      ensures pPendingSignalingMessageForRemoteClient == Without(old(pPendingSignalingMessageForRemoteClient), k)
      ensures base == old(base)[(k, h) := |Settled(old(log), k)|]
      ensures log == old(log) + DrainCalls(k, h, MessagesFor(old(pPendingSignalingMessageForRemoteClient), k), rejected)
      ensures ok <==> !Rejects(MessagesFor(old(pPendingSignalingMessageForRemoteClient), k), rejected)
    {
      base := base[(k, h) := |Settled(log, k)|];
      pRtcPeerConnectionForRemoteClient := pRtcPeerConnectionForRemoteClient[k := h];
      var found, messages := TakePending(k);
      ok := true;
      if found {
        var rest;
        ok, rest := SubmitPendingIceCandidate(k, h, messages, rejected);
        FreeMessageQueue(k, rest);
      }
    }

    /** The end of an offer that was handled: register, drain, then list the session or free it. */
    method RegisterSession(k: Key, h: Handle, rejected: set<nat>) returns (status: bool)
      requires Valid() && streamingSessionCount < MAX_SESSIONS && h < |sessions|
      modifies this, sampleStreamingSessionList
      ensures Valid() && View() == Registered(old(View()), k, h, rejected)
      ensures status <==> !Rejects(MessagesFor(old(View()).pending, k), rejected)
    {
      ghost var s := View();
      status := PutAndDrain(k, h, rejected);
      if !status {
        log := log + [Freed(h)];
      } else {
        sampleStreamingSessionList[streamingSessionCount] := h;
        streamingSessionCount := streamingSessionCount + 1;
        assert sampleStreamingSessionList[..streamingSessionCount] == s.list + [h];
      }
    }

    /** An offer from a new peer while a slot is free: create the session, handle the offer, list it. */
    method OpenSession(clientIdHash: Key, peer: PeerId, result: OfferResult, rejected: set<nat>) returns (status: bool)
      requires Valid() && clientIdHash !in pRtcPeerConnectionForRemoteClient && streamingSessionCount < MAX_SESSIONS
      modifies this, sampleStreamingSessionList
      ensures Valid()
      ensures View() == OfferStep(old(View()), clientIdHash, peer, result, rejected)
      ensures status <==> OfferSucceeds(old(View()), clientIdHash, result, rejected)
    {
      ghost var s := View();
      var h := |sessions|;
      sessions := sessions + [Session(peer, false)];
      if result != CreateFailed {
        log := log + [Described(h, result != DescribeFailed)];
      }
      if result != Handled {
        log := log + [Freed(h)];
        FailedOffer(s, clientIdHash, peer, result, rejected);
        return false;
      }
      HandledOffer(s, clientIdHash, peer, rejected);
      status := RegisterSession(clientIdHash, h, rejected);
    }

    /** The SIGNALING_MESSAGE_TYPE_OFFER case of signalingMessageReceived, with its clean-up. */
    method ReceiveOffer(crc: PeerId -> Key, peer: PeerId, result: OfferResult, rejected: set<nat>)
      returns (status: bool)
      requires Valid()
      modifies this, sampleStreamingSessionList
      ensures Valid()
      ensures View() == OfferStep(old(View()), crc(peer), peer, result, rejected)
      ensures status <==> OfferSucceeds(old(View()), crc(peer), result, rejected)
    {
      ghost var s := View();
      var clientIdHash := crc(peer);
      if clientIdHash in pRtcPeerConnectionForRemoteClient {
        assert s.log + [] == s.log;
        return false;
      }
      if streamingSessionCount == sampleStreamingSessionList.Length {
        var found, messages := TakePending(clientIdHash);
        FreeMessageQueue(clientIdHash, messages);
        return true;
      }
      status := OpenSession(clientIdHash, peer, result, rejected);
    }

    /** The SIGNALING_MESSAGE_TYPE_ANSWER case; `metrics` is the outcome of signalingClientGetMetrics at its end. */
    method ReceiveAnswer(crc: PeerId -> Key, peer: PeerId, described: bool, rejected: set<nat>, metrics: bool)
      returns (status: bool)
      requires Valid() && streamingSessionCount > 0
      modifies this
      ensures Valid()
      ensures View() == AnswerStep(old(View()), crc(peer), described, rejected)
      ensures status <==> AnswerSucceeds(old(View()), crc(peer), described, rejected) && metrics
    {
      ghost var s := View();
      var clientIdHash := crc(peer);
      var h := sampleStreamingSessionList[0];
      log := log + [Described(h, described)];
      if !described || clientIdHash in pRtcPeerConnectionForRemoteClient {
        assert log == s.log + ([Described(h, described)] + []);
        return false;
      }
      ghost var drain := DrainCalls(clientIdHash, h, MessagesFor(s.pending, clientIdHash), rejected);
      assert Settled(log, clientIdHash) == Settled(s.log, clientIdHash);
      status := PutAndDrain(clientIdHash, h, rejected);
      assert log == s.log + ([Described(h, true)] + drain);
      status := status && metrics;
    }

    /** The SIGNALING_MESSAGE_TYPE_ICE_CANDIDATE case; `now` is the time of createMessageQueue. */
    method ReceiveCandidate(crc: PeerId -> Key, peer: PeerId, now: nat, accepted: bool) returns (status: bool)
      requires Valid()
      modifies this
      ensures Valid()
      ensures View() == CandidateStep(old(View()), crc(peer), now, accepted)
      ensures status <==> (crc(peer) in old(View()).table ==> accepted)
    {
      ghost var s := View();
      var clientIdHash, id := crc(peer), arrived;
      clock, arrived, log := now, arrived + 1, log + [Arrived(clientIdHash, id)];
      if clientIdHash !in pRtcPeerConnectionForRemoteClient {
        var m := Message(CandidateMessage, id);
        var queues := pPendingSignalingMessageForRemoteClient;
        var found, at, _ := GetPendingMessageQueueForHash(queues, clientIdHash, false);
        if found {
          pPendingSignalingMessageForRemoteClient := queues[at := queues[at].(messages := queues[at].messages + [m])];
        } else {
          pPendingSignalingMessageForRemoteClient := queues + [PendingQueue(clientIdHash, now, [m])];
        }
        assert log == s.log + ([Arrived(clientIdHash, id)] + []);
        status := true;
      } else {
        log := log + [Submitted(clientIdHash, pRtcPeerConnectionForRemoteClient[clientIdHash], id, accepted)];
        assert log == s.log + CandidateCalls(s, clientIdHash, accepted);
        status := accepted;
      }
    }

    /** signalingMessageReceived: one message, handled under the object lock. */
    method SignalingMessageReceived(crc: PeerId -> Key, e: Event, metrics: bool) returns (status: bool)
      requires Valid() && Enabled(View(), e)
      requires e.Offer? || e.Answer? || e.Candidate? || e.Unhandled?
      modifies this, sampleStreamingSessionList
      ensures Valid() && View() == Step(crc, old(View()), e)
      ensures status <==> MessageSucceeds(old(View()), crc(e.peer), e, metrics)
    {
      match e
      case Offer(peer, result, rejected) => status := ReceiveOffer(crc, peer, result, rejected);
      case Answer(peer, described, rejected) => status := ReceiveAnswer(crc, peer, described, rejected, metrics);
      case Candidate(peer, now, ok) => status := ReceiveCandidate(crc, peer, now, ok);
      case Unhandled(_) => status := true;
    }

    /** The body of the scan for a terminated session: swap with the last one, unlink, free. */
    method RemoveSession(crc: PeerId -> Key, i: nat)
      requires Valid() && i < streamingSessionCount
      modifies this`streamingSessionCount, this`pRtcPeerConnectionForRemoteClient, this`log, sampleStreamingSessionList
      ensures Valid() && streamingSessionCount == old(streamingSessionCount) - 1
      ensures sampleStreamingSessionList[..streamingSessionCount]
           == SessionScan.SwapRemove(old(sampleStreamingSessionList[..streamingSessionCount]), i)
      ensures pRtcPeerConnectionForRemoteClient
           == old(pRtcPeerConnectionForRemoteClient) - {crc(sessions[old(sampleStreamingSessionList[i])].peerId)}
      ensures log == old(log) + [Freed(old(sampleStreamingSessionList[i]))]
    {
      var h := sampleStreamingSessionList[i];
      streamingSessionCount := streamingSessionCount - 1;
      sampleStreamingSessionList[i] := sampleStreamingSessionList[streamingSessionCount];
      var clientIdHash := crc(sessions[h].peerId);
      if clientIdHash in pRtcPeerConnectionForRemoteClient {
        pRtcPeerConnectionForRemoteClient := pRtcPeerConnectionForRemoteClient - {clientIdHash};
      }
      log := log + [Freed(h)];
    }

    /** The scan of a cleanup pass in sessionCleanupWait, in place on the array. */
    method ScanTerminatedSessions(crc: PeerId -> Key)
      requires Valid()
      modifies this, sampleStreamingSessionList
      ensures Valid()
      ensures View() == ScanStep(crc, old(View()))
    {
      ghost var s := View();
      ghost var freed: seq<Handle> := [];
      var i := 0;
      while i < streamingSessionCount
        invariant Valid() && sessions == s.sessions
        invariant clock == s.clock && arrived == s.arrived && base == s.base
        invariant pPendingSignalingMessageForRemoteClient == s.pending
        invariant Scanning(crc, s, i, freed, sampleStreamingSessionList[..streamingSessionCount],
                           pRtcPeerConnectionForRemoteClient, log)
        decreases streamingSessionCount - i
      {
        ghost var list := sampleStreamingSessionList[..streamingSessionCount];
        var h := sampleStreamingSessionList[i];
        assert h == list[i];
        ScanningStep(crc, s, i, freed, list, pRtcPeerConnectionForRemoteClient, log);
        if sessions[h].terminated {
          RemoveSession(crc, i);
          freed := freed + [h];
        }
        i := i + 1;
      }
      assert freed + [] == freed;
    }

    /** The queue expiry of a cleanup pass. */
    method ExpirePending(now: nat)
      requires Valid()
      modifies this
      ensures Valid()
      ensures View() == ExpireStep(old(View()), now)
    {
      var rest, expired := RemoveExpiredMessageQueues(pPendingSignalingMessageForRemoteClient, now);
      clock, pPendingSignalingMessageForRemoteClient := now, rest;
      log := log + DropCalls(expired);
    }

    /** onConnectionStateChange to failed, closed or disconnected. */
    method TerminateSession(crc: PeerId -> Key, h: Handle)
      requires Valid() && h in View().list
      modifies this
      ensures Valid()
      ensures View() == Step(crc, old(View()), Terminate(h))
      ensures sessions[h] == old(sessions)[h].(terminated := true)
      ensures |sessions| == |old(sessions)|
      ensures forall x :: 0 <= x < |sessions| && x != h ==> sessions[x] == old(sessions)[x]
    {
      sessions := sessions[h := sessions[h].(terminated := true)];
    }
  }

  /** Whether signalingMessageReceived reports success; a full list is not an error. */
  predicate OfferSucceeds(s: State, k: Key, result: OfferResult, rejected: set<nat>) {
    && k !in s.table
    && (|s.list| == MAX_SESSIONS || (result == Handled && !Rejects(MessagesFor(s.pending, k), rejected)))
  }

  predicate AnswerSucceeds(s: State, k: Key, described: bool, rejected: set<nat>) {
    described && k !in s.table && !Rejects(MessagesFor(s.pending, k), rejected)
  }

  /** The status of signalingMessageReceived for a message with key `k`. */
  predicate MessageSucceeds(s: State, k: Key, e: Event, metrics: bool) {
    match e
    case Offer(_, result, rejected) => OfferSucceeds(s, k, result, rejected)
    case Answer(_, described, rejected) => AnswerSucceeds(s, k, described, rejected) && metrics
    case Candidate(_, _, ok) => k in s.table ==> ok
    case _ => true
  }

  /** The state after an offer that is not handled. */
  lemma FailedOffer(s: State, k: Key, peer: PeerId, result: OfferResult, rejected: set<nat>)
    requires k !in s.table && |s.list| != MAX_SESSIONS && result != Handled
    ensures var h := |s.sessions|;
      var described := if result == CreateFailed then s.log else s.log + [Described(h, result != DescribeFailed)];
      OfferStep(s, k, peer, result, rejected)
      == s.(sessions := s.sessions + [Session(peer, false)], log := described + [Freed(h)])
  {
    var h := |s.sessions|;
    assert result != CreateFailed ==>
      s.log + [Described(h, result != DescribeFailed)] + [Freed(h)]
      == s.log + [Described(h, result != DescribeFailed), Freed(h)];
  }

  /** The state after session `h` was registered under `k` and drained, field by field. */
  ghost function Registered(s: State, k: Key, h: Handle, rejected: set<nat>): State {
    var msgs := MessagesFor(s.pending, k);
    var drained, failed := s.log + DrainCalls(k, h, msgs, rejected), Rejects(msgs, rejected);
    State(s.role, if failed then s.list else s.list + [h], s.table[k := h], Without(s.pending, k),
          s.sessions, s.clock, s.arrived, if failed then drained + [Freed(h)] else drained,
          s.base[(k, h) := |Settled(s.log, k)|])
  }

  lemma HandledOffer(s: State, k: Key, peer: PeerId, rejected: set<nat>)
    requires k !in s.table && |s.list| != MAX_SESSIONS
    ensures var h := |s.sessions|;
      var described := s.(sessions := s.sessions + [Session(peer, false)], log := s.log + [Described(h, true)]);
      OfferStep(s, k, peer, Handled, rejected) == Registered(described, k, h, rejected)
  {
    var h, msgs := |s.sessions|, MessagesFor(s.pending, k);
    var end := if Rejects(msgs, rejected) then [Freed(h)] else [];
    Regroup(s.log, [Described(h, true)], DrainCalls(k, h, msgs, rejected), end);
    DescribedSettlesNone(s.log, h, k);
  }

  lemma Regroup(a: seq<Call>, b: seq<Call>, c: seq<Call>, d: seq<Call>)
    ensures a + (b + c + d) == a + b + c + d
    ensures d == [] ==> a + (b + c + d) == a + b + c
  {
  }

  lemma DescribedSettlesNone(log: seq<Call>, h: Handle, k: Key)
    ensures Settled(log + [Described(h, true)], k) == Settled(log, k)
  {
    assert (log + [Described(h, true)])[..|log|] == log;
  }

  /** Where the scan of `s` stands before slot `i`, after the sessions in `freed` were removed. */
  ghost predicate Scanning(crc: PeerId -> Key, s: State, i: nat, freed: seq<Handle>,
                           list: seq<Handle>, table: map<Key, Handle>, log: seq<Call>) {
    && (forall h :: h in list ==> h in s.list)
    && SessionScan.ScanFrom(list, i, Terminated(s)) == SessionScan.Scan(s.list, Terminated(s))
    && freed + SessionScan.RemovedFrom(list, i, Terminated(s)) == SessionScan.Removed(s.list, Terminated(s))
    && table == s.table - KeysOf(crc, s, freed)
    && log == s.log + FreeCalls(freed)
  }

  lemma ScanningStep(crc: PeerId -> Key, s: State, i: nat, freed: seq<Handle>,
                     list: seq<Handle>, table: map<Key, Handle>, log: seq<Call>)
    requires Scanning(crc, s, i, freed, list, table, log)
    requires i < |list| && forall j :: 0 <= j < |list| ==> list[j] < |s.sessions|
    ensures !s.sessions[list[i]].terminated ==> Scanning(crc, s, i + 1, freed, list, table, log)
    ensures s.sessions[list[i]].terminated ==>
      Scanning(crc, s, i + 1, freed + [list[i]], SessionScan.SwapRemove(list, i),
               table - {crc(s.sessions[list[i]].peerId)}, log + [Freed(list[i])])
  {
    var h := list[i];
    assert h in list;
    if s.sessions[h].terminated {
      SwapRemoveMembers(list, i);
      FreeCallsSnoc(freed, h);
      KeysOfSnoc(crc, s, freed, h);
      var rest := SessionScan.RemovedFrom(SessionScan.SwapRemove(list, i), i + 1, Terminated(s));
      assert freed + ([h] + rest) == freed + [h] + rest;
    }
  }

  ghost function KeysOf(crc: PeerId -> Key, s: State, hs: seq<Handle>): set<Key> {
    set h | h in hs :: KeyOf(crc, s, h)
  }

  lemma KeysOfSnoc(crc: PeerId -> Key, s: State, hs: seq<Handle>, h: Handle)
    ensures KeysOf(crc, s, hs + [h]) == KeysOf(crc, s, hs) + {KeyOf(crc, s, h)}
  {
  }

  lemma SwapRemoveMembers(list: seq<Handle>, i: nat)
    requires i < |list|
    ensures forall h :: h in SessionScan.SwapRemove(list, i) ==> h in list
  {
  }

  lemma {:induction false} FreeCallsSnoc(hs: seq<Handle>, h: Handle)
    ensures FreeCalls(hs + [h]) == FreeCalls(hs) + [Freed(h)]
  {
    if hs != [] {
      assert (hs + [h])[1..] == hs[1..] + [h];
      FreeCallsSnoc(hs[1..], h);
    }
  }
}
