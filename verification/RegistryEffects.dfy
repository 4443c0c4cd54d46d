/**
 What the events of the registry bring about, told by what can be seen of it: who is listed, filed,
 queued, freed and flagged; and what this means over runs for terminate flags and expiry.
 */
module RegistryEffects {
  import opened Samples
  import opened CallLog
  import opened PendingQueues
  import opened SessionRegistry
  import opened RegistryCalls
  import opened RegistryInvariants
  import opened RegistryTheorems
  import SessionScan

  /** The calls that a step adds to the history. */
  ghost function NewCalls(s: State, s': State): seq<Call> {
    if |s.log| <= |s'.log| then s'.log[|s.log|..] else []
  }

  // ----- offers

  /** Nothing that belongs to a key other than `k` has changed. */
  ghost predicate OnlyKey(s: State, s': State, k: Key) {
    && (forall k' :: k' != k ==> MessagesFor(s'.pending, k') == MessagesFor(s.pending, k'))
    && (forall k' :: k' != k ==> (k' in s'.table <==> k' in s.table))
    && (forall k' :: k' != k && k' in s.table ==> s'.table[k'] == s.table[k'])
  }

  /** An offer for a key of the table is without effect; one that finds 10 sessions only loses its queue. */
  lemma OfferTurnedAway(crc: PeerId -> Key, s: State, e: Event)
    requires Inv(crc, s) && e.Offer? && (crc(e.peer) in s.table || |s.list| == 10)
    ensures var s' := Step(crc, s, e);
      && s'.list == s.list && s'.table == s.table && s'.sessions == s.sessions
      && OnlyKey(s, s', crc(e.peer))
      && MessagesFor(s'.pending, crc(e.peer)) == []
      && forall c :: c in NewCalls(s, s') ==> c.Discarded?
  {
    var k, s' := crc(e.peer), Step(crc, s, e);
    PendingAreCandidates(s, k);
    forall k'
      ensures MessagesFor(Without(s.pending, k), k') == if k' == k then [] else MessagesFor(s.pending, k')
    {
      WithoutLookup(s.pending, k, k');
    }
    DiscardsProject(k, MessagesFor(s.pending, k), k, 0);
    assert s'.log[|s.log|..] == OfferCalls(s, k, e.result, e.rejected);
  }

  /** The offer is handled, and so is every candidate that waited for it. */
  ghost predicate Succeeds(s: State, k: Key, e: Event)
    requires e.Offer?
  {
    e.result == Handled && forall m :: m in MessagesFor(s.pending, k) ==> m.id !in e.rejected
  }

  /**
   An offer with a new key and a free slot creates one session, unflagged. It is listed last if all
   goes well, and freed otherwise. It is filed and the queue of its key taken as soon as it is handled.
   */
  lemma OfferOpens(crc: PeerId -> Key, s: State, e: Event)
    requires Inv(crc, s) && e.Offer? && crc(e.peer) !in s.table && |s.list| < 10
    ensures var s', k, h := Step(crc, s, e), crc(e.peer), |s.sessions|;
      && s'.sessions == s.sessions + [Session(e.peer, false)]
      && s'.list == s.list + (if Succeeds(s, k, e) then [h] else [])
      && OnlyKey(s, s', k)
      && (k in s'.table <==> e.result == Handled)
      && (k in s'.table ==> s'.table[k] == h)
      && MessagesFor(s'.pending, k) == if e.result == Handled then [] else MessagesFor(s.pending, k)
  {
    var k, s' := crc(e.peer), Step(crc, s, e);
    PendingAreCandidates(s, k);
    forall k'
      ensures MessagesFor(Without(s.pending, k), k') == if k' == k then [] else MessagesFor(s.pending, k')
    {
      WithoutLookup(s.pending, k, k');
    }
    assert Rejects(MessagesFor(s.pending, k), e.rejected)
      <==> exists m :: m in MessagesFor(s.pending, k) && m.id in e.rejected;
  }

  /**
   What such an offer does to its session: at most one description, with its outcome; the queue up to
   the first rejected candidate; and a free unless all went well.
   */
  lemma OfferTalks(crc: PeerId -> Key, s: State, e: Event) returns (j: nat)
    requires Inv(crc, s) && e.Offer? && crc(e.peer) !in s.table && |s.list| < 10
    ensures var k, h, msgs := crc(e.peer), |s.sessions|, MessagesFor(s.pending, crc(e.peer));
      && FirstRefused(msgs, e.rejected, j)
      && var calls := NewCalls(s, Step(crc, s, e));
        && (Described(h, true) in calls <==> e.result == AnswerFailed || e.result == Handled)
        && (Described(h, false) in calls <==> e.result == DescribeFailed)
        && (Freed(h) in calls <==> !Succeeds(s, k, e))
        && (forall x :: Freed(x) in calls ==> x == h)
        && SubmittedTo(calls, k, h)
           == (if e.result != Handled then [] else Ids(if j < |msgs| then msgs[..j + 1] else msgs))
  {
    var k, h, msgs := crc(e.peer), |s.sessions|, MessagesFor(s.pending, crc(e.peer));
    var calls := OfferCalls(s, k, e.result, e.rejected);
    assert NewCalls(s, Step(crc, s, e)) == calls;
    PendingAreCandidates(s, k);
    j := FindRefused(msgs, e.rejected);
    OfferMembers(s, k, e.result, e.rejected);
    OfferProject(s, k, e.result, e.rejected, k, h);
    if e.result == Handled {
      HandledGives(k, h, msgs, e.rejected, j);
    }
    SucceedsUnlessRefused(s, k, e);
  }

  lemma SucceedsUnlessRefused(s: State, k: Key, e: Event)
    requires e.Offer? && AllCandidates(MessagesFor(s.pending, k))
    ensures Succeeds(s, k, e) <==> e.result == Handled && !Rejects(MessagesFor(s.pending, k), e.rejected)
  {
  }

  lemma OfferMembers(s: State, k: Key, result: OfferResult, rejected: set<nat>)
    requires k !in s.table && |s.list| < 10
    ensures var calls, h := OfferCalls(s, k, result, rejected), |s.sessions|;
      && (Described(h, true) in calls <==> result == AnswerFailed || result == Handled)
      && (Described(h, false) in calls <==> result == DescribeFailed)
      && (Freed(h) in calls <==> result != Handled || Rejects(MessagesFor(s.pending, k), rejected))
      && (forall x :: Freed(x) in calls ==> x == h)
  {
    OfferFrees(s, k, result, rejected);
    DrainMembers(k, |s.sessions|, MessagesFor(s.pending, k), rejected);
  }

  lemma HandledGives(k: Key, h: Handle, msgs: seq<Message>, rejected: set<nat>, j: nat)
    requires AllCandidates(msgs) && FirstRefused(msgs, rejected, j)
    ensures SubmittedTo([Described(h, true)] + DrainCalls(k, h, msgs, rejected)
                        + (if Rejects(msgs, rejected) then [Freed(h)] else []), k, h)
         == Ids(if j < |msgs| then msgs[..j + 1] else msgs)
  {
    var drain := DrainCalls(k, h, msgs, rejected);
    var end := if Rejects(msgs, rejected) then [Freed(h)] else [];
    DrainGives(k, h, msgs, rejected, j);
    PrependCall(Described(h, true), drain, k, h);
    ProjectConcat([Described(h, true)] + drain, end, k, h);
    PrependCall(Freed(h), [], k, h);
    assert [Freed(h)] + [] == [Freed(h)];
  }

  // ----- answers and candidates

  /**
   Every answer sets the remote description of the first listed session, once, also if its key is
   already taken; only an accepted answer with a new key files the session and takes the queue.
   */
  lemma AnswerDescribes(crc: PeerId -> Key, s: State, e: Event)
    requires Inv(crc, s) && Enabled(s, e) && e.Answer?
    ensures var s', k, h := Step(crc, s, e), crc(e.peer), s.list[0];
      && s'.list == s.list && s'.sessions == s.sessions && OnlyKey(s, s', k)
      && (k in s'.table <==> k in s.table || e.described)
      && (k in s'.table ==> s'.table[k] == if k in s.table then s.table[k] else h)
      && var calls := NewCalls(s, s');
        && |calls| > 0 && calls[0] == Described(h, e.described)
        && forall i :: 0 < i < |calls| ==> !calls[i].Described?
  {
    var k, h := crc(e.peer), s.list[0];
    var s', msgs := Step(crc, s, e), MessagesFor(s.pending, k);
    var calls := AnswerCalls(s, k, e.described, e.rejected);
    assert NewCalls(s, s') == calls;
    DrainMembers(k, h, msgs, e.rejected);
    assert forall i :: 0 < i < |calls| ==> calls[i] in DrainCalls(k, h, msgs, e.rejected);
    forall k'
      ensures MessagesFor(Without(s.pending, k), k') == if k' == k then [] else MessagesFor(s.pending, k')
    {
      WithoutLookup(s.pending, k, k');
    }
  }

  /** What such an answer gives its session: the queue of its key up to the first rejected candidate. */
  lemma AnswerGives(crc: PeerId -> Key, s: State, e: Event) returns (j: nat)
    requires Inv(crc, s) && Enabled(s, e) && e.Answer?
    ensures var s', k, msgs := Step(crc, s, e), crc(e.peer), MessagesFor(s.pending, crc(e.peer));
      && FirstRefused(msgs, e.rejected, j)
      && SubmittedTo(NewCalls(s, s'), k, s.list[0])
         == (if e.described && k !in s.table then Ids(if j < |msgs| then msgs[..j + 1] else msgs) else [])
      && MessagesFor(s'.pending, k) == (if e.described then [] else msgs)
  {
    var k, h, msgs := crc(e.peer), s.list[0], MessagesFor(s.pending, crc(e.peer));
    assert NewCalls(s, Step(crc, s, e)) == AnswerCalls(s, k, e.described, e.rejected);
    PendingAreCandidates(s, k);
    j := FindRefused(msgs, e.rejected);
    AnswerProject(s, k, e.described, e.rejected, k, h);
    DrainGives(k, h, msgs, e.rejected, j);
    PrependCall(Described(h, e.described), DrainCalls(k, h, msgs, e.rejected), k, h);
    WithoutLookup(s.pending, k, k);
  }

  /** A candidate for a key of the table is submitted at once, to its session, with the outcome of that call. */
  lemma CandidateGoesOn(crc: PeerId -> Key, s: State, e: Event)
    requires Inv(crc, s) && Enabled(s, e) && e.Candidate?
    ensures var s', k := Step(crc, s, e), crc(e.peer);
      && s'.list == s.list && s'.table == s.table && s'.sessions == s.sessions && OnlyKey(s, s', k)
      && var calls := NewCalls(s, s');
        && (k in s.table ==> Submitted(k, s.table[k], s.arrived, e.ok) in calls && s'.pending == s.pending)
        && (k !in s.table ==> |MessagesFor(s'.pending, k)| == |MessagesFor(s.pending, k)| + 1
                              && forall c :: c in calls ==> c.Arrived?)
  {
    var s', k := Step(crc, s, e), crc(e.peer);
    var calls := CandidateCalls(s, k, e.ok);
    assert NewCalls(s, s') == calls;
    if k in s.table {
      assert calls[1] == Submitted(k, s.table[k], s.arrived, e.ok);
    } else {
      forall k'
        ensures MessagesFor(s'.pending, k')
             == if k' == k then MessagesFor(s.pending, k) + [Message(CandidateMessage, s.arrived)]
                else MessagesFor(s.pending, k')
      {
        QueuedLookup(s.pending, k, e.now, Message(CandidateMessage, s.arrived), k');
      }
    }
  }

  /** The session that a viewer starts with is the one that an answer files, and candidates reach. */
  lemma ViewerExample(crc: PeerId -> Key, me: PeerId, peer: PeerId) returns (s: State)
    ensures IsRun(crc, Init(Viewer), [StartViewer(me), Answer(peer, true, {})])
    ensures s == Run(crc, Init(Viewer), [StartViewer(me), Answer(peer, true, {})])
    ensures s.list == [0] && s.table == map[crc(peer) := 0] && s.sessions == [Session(me, false)]
  {
    var s1 := Step(crc, Init(Viewer), StartViewer(me));
    assert s1.list == [0] && s1.table == map[];
    s := Step(crc, s1, Answer(peer, true, {}));
    RunOfTwo(crc, Init(Viewer), StartViewer(me), Answer(peer, true, {}));
  }

  /** Messages of other kinds are ignored, and the clock follows the events that read it. */
  lemma OtherMessages(crc: PeerId -> Key, s: State, e: Event)
    requires Enabled(s, e)
    ensures e.Unhandled? ==> Step(crc, s, e) == s
    ensures Step(crc, s, e).clock == (if e.Candidate? || e.Expire? then e.now else s.clock) >= s.clock
  {
  }

  // ----- terminate flags

  /** A termination flags its session and no other, and changes nothing else. */
  lemma TerminateFlags(crc: PeerId -> Key, s: State, h: Handle)
    requires ListOk(s) && Enabled(s, Terminate(h))
    ensures var s' := Step(crc, s, Terminate(h));
      && Terminated(s') == Terminated(s) + {h}
      && s' == s.(sessions := s'.sessions) && |s'.sessions| == |s.sessions|
      && s'.sessions[h] == Session(s.sessions[h].peerId, true)
      && forall x :: 0 <= x < |s.sessions| && x != h ==> s'.sessions[x] == s.sessions[x]
  {
  }

  /** Session `h` has its terminate flag set. */
  predicate Flagged(s: State, h: Handle) {
    h < |s.sessions| && s.sessions[h].terminated
  }

  lemma StepFlags(crc: PeerId -> Key, s: State, e: Event, h: Handle)
    requires Enabled(s, e)
    ensures Flagged(Step(crc, s, e), h) <==> Flagged(s, h) || e == Terminate(h)
  {
  }

  /** In every run, the flagged sessions are those for which there was a termination. */
  lemma {:induction false} FlaggedIff(crc: PeerId -> Key, s: State, es: seq<Event>, n: nat, h: Handle)
    requires IsRun(crc, s, es) && n <= |es| && !Flagged(s, h)
    ensures Flagged(StateAt(crc, s, es, n), h) <==> exists i :: 0 <= i < n && es[i] == Terminate(h)
    decreases n
  {
    if n > 0 {
      FlaggedIff(crc, s, es, n - 1, h);
      StateAtNext(crc, s, es, n - 1);
      StepFlags(crc, StateAt(crc, s, es, n - 1), es[n - 1], h);
    }
  }

  /**
   In every run from the start, a pass frees only sessions that are listed then and for which there was
   a termination before, and a session without one stays.
   */
  lemma PassFreesTerminated(crc: PeerId -> Key, role: Role, es: seq<Event>, p: nat, h: Handle)
    requires IsRun(crc, Init(role), es)
    requires FreesAt(crc, role, es, p, h)
    ensures h in StateAt(crc, Init(role), es, p).list
    ensures h !in StateAt(crc, Init(role), es, p + 1).list
    ensures exists i :: 0 <= i < p && es[i] == Terminate(h)
  {
    var s := StateAt(crc, Init(role), es, p);
    RunAt(crc, role, es, p);
    ScanListed(s);
    SessionScan.ScanHalves(s.list, Terminated(s));
    FlaggedIff(crc, Init(role), es, p, h);
  }

  // ----- expiry

  /** The queue for `k` was created by the candidate of the `a`-th event, which is the first one in it. */
  ghost predicate QueueStarted(crc: PeerId -> Key, role: Role, es: seq<Event>, q: PendingQueue, a: nat)
    requires IsRun(crc, Init(role), es)
  {
    && a < |es| && es[a].Candidate? && crc(es[a].peer) == q.key && es[a].now == q.createTime
    && q.messages != [] && q.messages[0].id == StateAt(crc, Init(role), es, a).arrived
  }

  /** The queue goes on from a queue of `s`. */
  ghost predicate GoesOnFrom(s: State, q: PendingQueue, q0: PendingQueue) {
    q0 in s.pending && q0.key == q.key && q0.createTime == q.createTime && q0.messages <= q.messages
  }

  lemma StepQueues(crc: PeerId -> Key, s: State, e: Event, q: PendingQueue)
    requires PendingOk(s) && Enabled(s, e) && q in Step(crc, s, e).pending
    ensures (exists q0 :: GoesOnFrom(s, q, q0))
         || (e.Candidate? && q == PendingQueue(crc(e.peer), e.now, [Message(CandidateMessage, s.arrived)]))
  {
    match e
    case Candidate(peer, now, ok) =>
      if crc(peer) !in s.table {
        QueuedFrom(s, crc(peer), now, Message(CandidateMessage, s.arrived), q);
      } else {
        assert GoesOnFrom(s, q, q);
      }
    case Expire(now) =>
      KeptForTwentySeconds(s.pending, now, q);
      assert GoesOnFrom(s, q, q);
    case _ =>
      assert GoesOnFrom(s, q, q);
  }

  lemma QueuedFrom(s: State, k: Key, now: nat, m: Message, q: PendingQueue)
    requires q in Queued(s.pending, k, now, m)
    ensures (exists q0 :: GoesOnFrom(s, q, q0)) || q == PendingQueue(k, now, [m])
  {
    var i := IndexOf(s.pending, k);
    if q in s.pending {
      assert GoesOnFrom(s, q, q);
    } else if i < |s.pending| {
      assert GoesOnFrom(s, q, s.pending[i]);
    }
  }

  /** In every run, a queue dates from the arrival of the first candidate in it. */
  lemma {:induction false} QueueOrigin(crc: PeerId -> Key, role: Role, es: seq<Event>, n: nat, q: PendingQueue)
    returns (a: nat)
    requires IsRun(crc, Init(role), es) && n <= |es|
    requires q in StateAt(crc, Init(role), es, n).pending
    ensures a < n && QueueStarted(crc, role, es, q, a)
    decreases n
  {
    if n > 0 {
      var q0, carriedOn := QueueBefore(crc, role, es, n - 1, q);
      if carriedOn {
        a := QueueOrigin(crc, role, es, n - 1, q0);
      } else {
        a := n - 1;
      }
    }
  }

  lemma QueueBefore(crc: PeerId -> Key, role: Role, es: seq<Event>, n: nat, q: PendingQueue)
    returns (q0: PendingQueue, carriedOn: bool)
    requires IsRun(crc, Init(role), es) && n < |es|
    requires q in StateAt(crc, Init(role), es, n + 1).pending
    ensures carriedOn ==> q0 in StateAt(crc, Init(role), es, n).pending
    ensures carriedOn ==> forall a: nat :: QueueStarted(crc, role, es, q0, a) ==> QueueStarted(crc, role, es, q, a)
    ensures !carriedOn ==> QueueStarted(crc, role, es, q, n)
  {
    var s := StateAt(crc, Init(role), es, n);
    RunAt(crc, role, es, n);
    StepQueues(crc, s, es[n], q);
    carriedOn := exists q0 :: GoesOnFrom(s, q, q0);
    q0 := q;
    if carriedOn {
      q0 :| GoesOnFrom(s, q, q0);
    }
  }

  lemma QueueOf(pending: seq<PendingQueue>, k: Key) returns (q: PendingQueue)
    requires MessagesFor(pending, k) != []
    ensures q in pending && q.key == k && q.messages == MessagesFor(pending, k)
  {
    q := pending[IndexOf(pending, k)];
  }

  lemma ExpiryOf(s: State, now: nat, q: PendingQueue)
    requires PendingOk(s) && q in s.pending
    ensures var late := q.createTime + 200_000_000 < now;
      && MessagesFor(Kept(s.pending, now), q.key) == (if late then [] else q.messages)
      && MessagesFor(Dropped(s.pending, now), q.key) == (if late then q.messages else [])
  {
    var kept, dropped := Kept(s.pending, now), Dropped(s.pending, now);
    KeptLookup(s.pending, now, q.key);
    KeptForTwentySeconds(s.pending, now, q);
    var i :| 0 <= i < |s.pending| && s.pending[i] == q;
    MessagesOf(s.pending, i);
    KeptOrder(s.pending, now);
    if q in kept {
      var j :| 0 <= j < |kept| && kept[j] == q;
      MessagesOf(kept, j);
    } else {
      var j :| 0 <= j < |dropped| && dropped[j] == q;
      MessagesOf(dropped, j);
    }
  }

  /**
   In every run, an expiry discards the candidates waiting for a key, all of them, iff the first of
   them arrived more than 20 seconds before; otherwise they go on waiting.
   */
  lemma ExpiresIffTooOld(crc: PeerId -> Key, role: Role, es: seq<Event>, n: nat, k: Key) returns (a: nat)
    requires IsRun(crc, Init(role), es) && n < |es| && es[n].Expire?
    requires MessagesFor(StateAt(crc, Init(role), es, n).pending, k) != []
    ensures var s, s' := StateAt(crc, Init(role), es, n), StateAt(crc, Init(role), es, n + 1);
      var waiting := MessagesFor(s.pending, k);
      && a < n && es[a].Candidate? && crc(es[a].peer) == k
      && waiting[0].id == StateAt(crc, Init(role), es, a).arrived
      && var late := es[a].now + 200_000_000 < es[n].now;
        && MessagesFor(s'.pending, k) == (if late then [] else waiting)
        && Settled(s'.log, k) == Settled(s.log, k) + (if late then Ids(waiting) else [])
  {
    var s := StateAt(crc, Init(role), es, n);
    RunAt(crc, role, es, n);
    var q := QueueOf(s.pending, k);
    a := QueueOrigin(crc, role, es, n, q);
    ExpiryOf(s, es[n].now, q);
    ExpireProgress(s, es[n].now, k);
  }
}
