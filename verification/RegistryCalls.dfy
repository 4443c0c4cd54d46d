/** What each kind of step contributes to the log. */
module RegistryCalls {
  import opened Samples
  import opened CallLog
  import opened PendingQueues
  import opened SessionRegistry

  ghost predicate AllCandidates(msgs: seq<Message>) {
    forall m :: m in msgs ==> m.kind == CandidateMessage
  }

  lemma {:induction false} IdsConcat(a: seq<Message>, b: seq<Message>)
    ensures Ids(a + b) == Ids(a) + Ids(b)
  {
    if a == [] {
      assert a + b == b;
    } else {
      assert (a + b)[1..] == a[1..] + b;
      IdsConcat(a[1..], b);
    }
  }

  lemma ProjectConcat(a: seq<Call>, b: seq<Call>, k: Key, h: Handle)
    ensures Arrivals(a + b, k) == Arrivals(a, k) + Arrivals(b, k)
    ensures Settled(a + b, k) == Settled(a, k) + Settled(b, k)
    ensures SubmittedTo(a + b, k, h) == SubmittedTo(a, k, h) + SubmittedTo(b, k, h)
  {
    ArrivalsConcat(a, b, k);
    SettledConcat(a, b, k);
    SubmittedToConcat(a, b, k, h);
  }

  lemma PrependCall(c: Call, rest: seq<Call>, k: Key, h: Handle)
    ensures Arrivals([c] + rest, k) == (if c.Arrived? && c.key == k then [c.id] else []) + Arrivals(rest, k)
    ensures Settled([c] + rest, k)
         == (if (c.Submitted? || c.Discarded?) && c.key == k then [c.id] else []) + Settled(rest, k)
    ensures SubmittedTo([c] + rest, k, h)
         == (if c.Submitted? && c.key == k && c.session == h then [c.id] else []) + SubmittedTo(rest, k, h)
  {
    ProjectConcat([c], rest, k, h);
    assert [c][..0] == [];
  }

  lemma {:induction false} DiscardsProject(k: Key, msgs: seq<Message>, k': Key, h: Handle)
    ensures Arrivals(Discards(k, msgs), k') == []
    ensures Settled(Discards(k, msgs), k') == if k' == k then Ids(msgs) else []
    ensures SubmittedTo(Discards(k, msgs), k', h) == []
    ensures forall c :: c in Discards(k, msgs) ==> c.Discarded?
  {
    if msgs != [] {
      DiscardsProject(k, msgs[1..], k', h);
      PrependCall(Discarded(k, msgs[0].id), Discards(k, msgs[1..]), k', h);
    }
  }

  /** Draining settles the queue in order; nothing is left over, whether it succeeds or not. */
  lemma {:induction false} DrainProject(k: Key, h: Handle, msgs: seq<Message>, rejected: set<nat>, k': Key, h': Handle)
    requires AllCandidates(msgs)
    ensures Arrivals(DrainCalls(k, h, msgs, rejected), k') == []
    ensures Settled(DrainCalls(k, h, msgs, rejected), k') == if k' == k then Ids(msgs) else []
    ensures k' != k || h' != h ==> SubmittedTo(DrainCalls(k, h, msgs, rejected), k', h') == []
    ensures k' == k && h' == h && !Rejects(msgs, rejected) ==>
      SubmittedTo(DrainCalls(k, h, msgs, rejected), k', h') == Ids(msgs)
  {
    if msgs != [] {
      var m, rest := msgs[0], msgs[1..];
      assert m in msgs;
      if m.id in rejected {
        DiscardsProject(k, rest, k', h');
        PrependCall(Submitted(k, h, m.id, false), Discards(k, rest), k', h');
      } else {
        DrainProject(k, h, rest, rejected, k', h');
        PrependCall(Submitted(k, h, m.id, true), DrainCalls(k, h, rest, rejected), k', h');
      }
    }
  }

  lemma {:induction false} DiscardsEach(k: Key, msgs: seq<Message>)
    ensures |Discards(k, msgs)| == |msgs|
    ensures forall i :: 0 <= i < |msgs| ==> Discards(k, msgs)[i] == Discarded(k, msgs[i].id)
  {
    if msgs != [] {
      DiscardsEach(k, msgs[1..]);
    }
  }

  /** The `j`-th candidate of the queue is the first one that is rejected; `j` is the end if none is. */
  ghost predicate FirstRefused(msgs: seq<Message>, rejected: set<nat>, j: nat) {
    && j <= |msgs|
    && (forall i :: 0 <= i < j ==> msgs[i].id !in rejected)
    && (j < |msgs| ==> msgs[j].id in rejected)
  }

  lemma {:induction false} FindRefused(msgs: seq<Message>, rejected: set<nat>) returns (j: nat)
    requires AllCandidates(msgs)
    ensures FirstRefused(msgs, rejected, j)
    ensures j < |msgs| <==> Rejects(msgs, rejected)
  {
    j := 0;
    while j < |msgs| && msgs[j].id !in rejected
      invariant j <= |msgs|
      invariant forall i :: 0 <= i < j ==> msgs[i].id !in rejected
    {
      j := j + 1;
    }
    if j < |msgs| {
      assert msgs[j] in msgs && Refused(msgs[j], rejected);
    }
  }

  /** What becomes of the `i`-th candidate of a queue whose `j`-th is the first one rejected. */
  function StopAt(k: Key, h: Handle, id: nat, i: nat, j: nat): Call {
    if i < j then Submitted(k, h, id, true) else if i == j then Submitted(k, h, id, false) else Discarded(k, id)
  }

  /**
   A drain stops at the first rejected candidate: those before it are submitted and accepted, it is
   submitted and rejected, and those behind it are never submitted but discarded.
   */
  lemma {:induction false} DrainStops(k: Key, h: Handle, msgs: seq<Message>, rejected: set<nat>, j: nat)
    requires AllCandidates(msgs) && FirstRefused(msgs, rejected, j)
    ensures var calls := DrainCalls(k, h, msgs, rejected);
      && |calls| == |msgs|
      && forall i :: 0 <= i < |msgs| ==> calls[i] == StopAt(k, h, msgs[i].id, i, j)
  {
    if msgs != [] {
      var m, rest := msgs[0], msgs[1..];
      assert m in msgs;
      if j == 0 {
        DiscardsEach(k, rest);
        assert DrainCalls(k, h, msgs, rejected) == [Submitted(k, h, m.id, false)] + Discards(k, rest);
      } else {
        DrainStops(k, h, rest, rejected, j - 1);
        var calls := DrainCalls(k, h, rest, rejected);
        assert DrainCalls(k, h, msgs, rejected) == [Submitted(k, h, m.id, true)] + calls;
        forall i | 0 <= i < |rest|
          ensures calls[i] == StopAt(k, h, rest[i].id, i, j - 1)
        {
        }
      }
    }
  }

  /** What the session is given in a drain: the queue up to and including the first rejected candidate. */
  lemma {:induction false} DrainGives(k: Key, h: Handle, msgs: seq<Message>, rejected: set<nat>, j: nat)
    requires AllCandidates(msgs) && FirstRefused(msgs, rejected, j)
    ensures SubmittedTo(DrainCalls(k, h, msgs, rejected), k, h) == Ids(if j < |msgs| then msgs[..j + 1] else msgs)
    decreases msgs
  {
    if msgs != [] {
      var m, rest := msgs[0], msgs[1..];
      assert m in msgs;
      if j == 0 {
        DiscardsProject(k, rest, k, h);
        PrependCall(Submitted(k, h, m.id, false), Discards(k, rest), k, h);
        assert msgs[..1][1..] == [];
      } else {
        DrainGives(k, h, rest, rejected, j - 1);
        PrependCall(Submitted(k, h, m.id, true), DrainCalls(k, h, rest, rejected), k, h);
        assert j < |msgs| ==> msgs[..j + 1][1..] == rest[..j];
      }
    }
  }

  /** A drain only talks to its session, and frees nothing. */
  lemma {:induction false} DrainMembers(k: Key, h: Handle, msgs: seq<Message>, rejected: set<nat>)
    ensures forall c :: c in DrainCalls(k, h, msgs, rejected) ==>
      c.Discarded? || (c.Submitted? && c.session == h)
  {
    if msgs == [] {
    } else if msgs[0].kind != CandidateMessage || msgs[0].id !in rejected {
      DrainMembers(k, h, msgs[1..], rejected);
    } else {
      DiscardsProject(k, msgs[1..], k, h);
    }
  }

  lemma {:induction false} DropProject(queues: seq<PendingQueue>, k: Key, h: Handle)
    requires DistinctKeys(queues)
    ensures Arrivals(DropCalls(queues), k) == []
    ensures Settled(DropCalls(queues), k) == Ids(MessagesFor(queues, k))
    ensures SubmittedTo(DropCalls(queues), k, h) == []
    ensures forall c :: c in DropCalls(queues) ==> c.Discarded?
  {
    if queues != [] {
      var q, rest := queues[0], queues[1..];
      DropProject(rest, k, h);
      DiscardsProject(q.key, q.messages, k, h);
      ProjectConcat(Discards(q.key, q.messages), DropCalls(rest), k, h);
      assert queues == [q] + rest;
      ConcatLookup([q], rest, k);
      IdsConcat(MessagesFor([q], k), MessagesFor(rest, k));
    }
  }

  lemma {:induction false} FreeProject(hs: seq<Handle>, k: Key, h: Handle)
    ensures Arrivals(FreeCalls(hs), k) == []
    ensures Settled(FreeCalls(hs), k) == []
    ensures SubmittedTo(FreeCalls(hs), k, h) == []
    ensures forall c :: c in FreeCalls(hs) <==> c.Freed? && c.session in hs
  {
    if hs != [] {
      FreeProject(hs[1..], k, h);
      PrependCall(Freed(hs[0]), FreeCalls(hs[1..]), k, h);
      assert forall x :: x in hs <==> x == hs[0] || x in hs[1..];
    }
  }

  lemma {:induction false} FreeCallsSingle(hs: seq<Handle>)
    requires forall i, j :: 0 <= i < j < |hs| ==> hs[i] != hs[j]
    ensures SingleFree(FreeCalls(hs))
  {
    if hs != [] {
      FreeCallsSingle(hs[1..]);
      FreeProject(hs[1..], 0, 0);
      SingleFreeAppend([Freed(hs[0])], FreeCalls(hs[1..]));
    }
  }

  ghost predicate Drains(s: State, k: Key, result: OfferResult) {
    k !in s.table && |s.list| != MAX_SESSIONS && result == Handled
  }

  /** The calls of an offer, key by key. */
  lemma OfferProject(s: State, k: Key, result: OfferResult, rejected: set<nat>, k': Key, h': Handle)
    requires AllCandidates(MessagesFor(s.pending, k))
    ensures Arrivals(OfferCalls(s, k, result, rejected), k') == []
    ensures Settled(OfferCalls(s, k, result, rejected), k')
         == if k' == k && k !in s.table && (|s.list| == MAX_SESSIONS || result == Handled)
            then Ids(MessagesFor(s.pending, k)) else []
    ensures !Drains(s, k, result) || k' != k || h' != |s.sessions| ==>
      SubmittedTo(OfferCalls(s, k, result, rejected), k', h') == []
    ensures Drains(s, k, result) && k' == k && h' == |s.sessions| && !Rejects(MessagesFor(s.pending, k), rejected) ==>
      SubmittedTo(OfferCalls(s, k, result, rejected), k', h') == Ids(MessagesFor(s.pending, k))
  {
    var h, msgs := |s.sessions|, MessagesFor(s.pending, k);
    if k in s.table {
    } else if |s.list| == MAX_SESSIONS {
      DiscardsProject(k, msgs, k', h');
    } else if result == Handled {
      HandledProject(k, h, msgs, rejected, k', h');
    } else {
      PrependCall(Freed(h), [], k', h');
      assert [Freed(h)] + [] == [Freed(h)];
      PrependCall(Described(h, result == AnswerFailed), [Freed(h)], k', h');
      assert [Described(h, result == AnswerFailed)] + [Freed(h)] == [Described(h, result == AnswerFailed), Freed(h)];
    }
  }

  lemma HandledProject(k: Key, h: Handle, msgs: seq<Message>, rejected: set<nat>, k': Key, h': Handle)
    requires AllCandidates(msgs)
    ensures var calls := [Described(h, true)] + DrainCalls(k, h, msgs, rejected)
                         + if Rejects(msgs, rejected) then [Freed(h)] else [];
      && Arrivals(calls, k') == []
      && Settled(calls, k') == (if k' == k then Ids(msgs) else [])
      && (k' != k || h' != h ==> SubmittedTo(calls, k', h') == [])
      && (k' == k && h' == h && !Rejects(msgs, rejected) ==> SubmittedTo(calls, k', h') == Ids(msgs))
  {
    var drain := DrainCalls(k, h, msgs, rejected);
    var end := if Rejects(msgs, rejected) then [Freed(h)] else [];
    DrainProject(k, h, msgs, rejected, k', h');
    PrependCall(Described(h, true), drain, k', h');
    ProjectConcat([Described(h, true)] + drain, end, k', h');
    PrependCall(Freed(h), [], k', h');
    assert [Freed(h)] + [] == [Freed(h)];
  }

  lemma AnswerProject(s: State, k: Key, described: bool, rejected: set<nat>, k': Key, h': Handle)
    requires s.list != []
    requires AllCandidates(MessagesFor(s.pending, k))
    ensures Arrivals(AnswerCalls(s, k, described, rejected), k') == []
    ensures Settled(AnswerCalls(s, k, described, rejected), k')
         == if k' == k && described && k !in s.table then Ids(MessagesFor(s.pending, k)) else []
    ensures k' != k || h' != s.list[0] || !described || k in s.table ==>
      SubmittedTo(AnswerCalls(s, k, described, rejected), k', h') == []
    ensures k' == k && h' == s.list[0] && described && k !in s.table
            && !Rejects(MessagesFor(s.pending, k), rejected) ==>
      SubmittedTo(AnswerCalls(s, k, described, rejected), k', h') == Ids(MessagesFor(s.pending, k))
  {
    var h, msgs := s.list[0], MessagesFor(s.pending, k);
    DrainProject(k, h, msgs, rejected, k', h');
    var drain := if !described || k in s.table then [] else DrainCalls(k, h, msgs, rejected);
    PrependCall(Described(h, described), drain, k', h');
  }

  lemma CandidateProject(s: State, k: Key, ok: bool, k': Key, h': Handle)
    ensures Arrivals(CandidateCalls(s, k, ok), k') == if k' == k then [s.arrived] else []
    ensures Settled(CandidateCalls(s, k, ok), k') == if k' == k && k in s.table then [s.arrived] else []
    ensures SubmittedTo(CandidateCalls(s, k, ok), k', h')
         == if k' == k && k in s.table && h' == s.table[k] then [s.arrived] else []
  {
    var a := Arrived(k, s.arrived);
    if k in s.table {
      var b := Submitted(k, s.table[k], s.arrived, ok);
      PrependCall(b, [], k', h');
      assert [b] + [] == [b];
      PrependCall(a, [b], k', h');
    } else {
      PrependCall(a, [], k', h');
    }
  }
}
