/**
 Candidate messages that arrive before their session exists wait in per-key queues
 (samples/Common.c, createMessageQueue, getPendingMessageQueueForHash, removeExpiredMessageQueues).
 */
module PendingQueues {
  import opened Samples
  import opened CallLog

  /** SAMPLE_PENDING_MESSAGE_CLEANUP_DURATION */
  const CLEANUP_DURATION := 20 * HUNDREDS_OF_NANOS_IN_A_SECOND

  datatype Kind = OfferMessage | AnswerMessage | CandidateMessage | OtherMessage

  datatype Message = Message(kind: Kind, id: nat)

  datatype PendingQueue = PendingQueue(key: Key, createTime: nat, messages: seq<Message>)

  /** Position of the first queue for `k`, or the number of queues. */
  function IndexOf(pending: seq<PendingQueue>, k: Key): (i: nat)
    ensures i <= |pending|
    ensures i < |pending| ==> pending[i].key == k
    ensures forall j :: 0 <= j < i ==> pending[j].key != k
  {
    if pending == [] || pending[0].key == k then 0 else 1 + IndexOf(pending[1..], k)
  }

  predicate HasQueue(pending: seq<PendingQueue>, k: Key) {
    IndexOf(pending, k) < |pending|
  }

  function MessagesFor(pending: seq<PendingQueue>, k: Key): seq<Message> {
    if HasQueue(pending, k) then pending[IndexOf(pending, k)].messages else []
  }

  function Without(pending: seq<PendingQueue>, k: Key): seq<PendingQueue> {
    var i := IndexOf(pending, k);
    if i < |pending| then pending[..i] + pending[i + 1..] else pending
  }

  /** `m` queued for `k` at time `now`; the queue is created if there is none. */
  function Queued(pending: seq<PendingQueue>, k: Key, now: nat, m: Message): seq<PendingQueue> {
    var i := IndexOf(pending, k);
    if i < |pending| then pending[i := pending[i].(messages := pending[i].messages + [m])]
    else pending + [PendingQueue(k, now, [m])]
  }

  predicate Expired(q: PendingQueue, now: nat) {
    q.createTime + CLEANUP_DURATION < now
  }

  /** The stable filter that keeps the queues not yet expired. */
  function Kept(pending: seq<PendingQueue>, now: nat): seq<PendingQueue> {
    if pending == [] then []
    else
      var q := pending[|pending| - 1];
      Kept(pending[..|pending| - 1], now) + if Expired(q, now) then [] else [q]
  }

  /** The stable filter that keeps the expired queues. */
  function Dropped(pending: seq<PendingQueue>, now: nat): seq<PendingQueue> {
    if pending == [] then []
    else
      var q := pending[|pending| - 1];
      Dropped(pending[..|pending| - 1], now) + if Expired(q, now) then [q] else []
  }

  ghost predicate DistinctKeys(pending: seq<PendingQueue>) {
    forall i, j :: 0 <= i < j < |pending| ==> pending[i].key != pending[j].key
  }

  ghost predicate SortedByCreation(pending: seq<PendingQueue>) {
    forall i, j :: 0 <= i < j < |pending| ==> pending[i].createTime <= pending[j].createTime
  }

  /** A queue that holds something, and only candidate messages. */
  ghost predicate WellFilled(q: PendingQueue) {
    q.messages != [] && forall m :: m in q.messages ==> m.kind == CandidateMessage
  }

  /** getPendingMessageQueueForHash: iterate until the key is found; take the queue out if asked to. */
  method GetPendingMessageQueueForHash(pending: seq<PendingQueue>, k: Key, remove: bool)
    returns (found: bool, at: nat, rest: seq<PendingQueue>)
    ensures found <==> exists q :: q in pending && q.key == k
    ensures found ==> at < |pending| && pending[at].key == k && MessagesFor(pending, k) == pending[at].messages
    ensures found ==> forall j :: 0 <= j < at ==> pending[j].key != k
    ensures !found ==> MessagesFor(pending, k) == []
    ensures rest == if remove then Without(pending, k) else pending
  {
    found, at, rest := false, 0, pending;
    var iterate, next := true, 0;
    while iterate && next < |pending|
      invariant 0 <= next <= |pending|
      invariant iterate <==> !found
      invariant iterate ==> rest == pending && forall j :: 0 <= j < next ==> pending[j].key != k
      invariant found ==> at == IndexOf(pending, k) < |pending|
      invariant found ==> rest == if remove then Without(pending, k) else pending
      decreases |pending| - next, iterate
    {
      var q := pending[next];
      next := next + 1;
      if q.key == k {
        found, at, iterate := true, next - 1, false;
        if remove {
          rest := pending[..at] + pending[at + 1..];
        }
      }
    }
    if found {
      assert pending[at] in pending;
    }
  }

  /** removeExpiredMessageQueues: every queue is dequeued once, and enqueued again unless it expired. */
  method RemoveExpiredMessageQueues(pending: seq<PendingQueue>, now: nat)
    returns (rest: seq<PendingQueue>, freed: seq<PendingQueue>)
    ensures rest == Kept(pending, now)
    ensures freed == Dropped(pending, now)
  {
    rest, freed := pending, [];
    for i := 0 to |pending|
      invariant rest == pending[i..] + Kept(pending[..i], now)
      invariant freed == Dropped(pending[..i], now)
    {
      var q := rest[0];
      rest := rest[1..];
      assert pending[..i + 1][..i] == pending[..i];
      if Expired(q, now) {
        freed := freed + [q];
      } else {
        rest := rest + [q];
      }
    }
    assert pending[..|pending|] == pending;
  }

  /** On queues in order of creation, expiry drops exactly a prefix. */
  lemma {:induction false} ExpiryDropsPrefix(pending: seq<PendingQueue>, now: nat)
    requires SortedByCreation(pending)
    ensures Dropped(pending, now) + Kept(pending, now) == pending
    ensures forall q :: q in Dropped(pending, now) ==> Expired(q, now)
    ensures forall q :: q in Kept(pending, now) ==> !Expired(q, now)
  {
    if pending != [] {
      var n := |pending| - 1;
      var init, q := pending[..n], pending[n];
      ExpiryDropsPrefix(init, now);
      assert pending == init + [q];
      assert forall x :: x in Kept(init, now) ==> x in Dropped(init, now) + Kept(init, now);
      assert Expired(q, now) ==> forall x :: x in init ==> Expired(x, now);
    }
  }

  lemma {:induction false} KeptDroppedMembers(pending: seq<PendingQueue>, now: nat)
    ensures forall q :: q in Kept(pending, now) <==> q in pending && !Expired(q, now)
    ensures forall q :: q in Dropped(pending, now) <==> q in pending && Expired(q, now)
  {
    if pending != [] {
      var n := |pending| - 1;
      KeptDroppedMembers(pending[..n], now);
      assert pending == pending[..n] + [pending[n]];
      assert forall q :: q in pending <==> q in pending[..n] || q == pending[n];
    }
  }

  /** A queue is kept for 20 seconds after its creation, and dropped afterwards. */
  lemma KeptForTwentySeconds(pending: seq<PendingQueue>, now: nat, q: PendingQueue)
    ensures q in Kept(pending, now) <==> q in pending && now <= q.createTime + 200_000_000
    ensures q in Dropped(pending, now) <==> q in pending && q.createTime + 200_000_000 < now
  {
    KeptDroppedMembers(pending, now);
  }

  // ----- looking up a key after a change

  lemma MessagesOf(pending: seq<PendingQueue>, i: nat)
    requires DistinctKeys(pending) && i < |pending|
    ensures IndexOf(pending, pending[i].key) == i
    ensures MessagesFor(pending, pending[i].key) == pending[i].messages
  {
  }

  lemma ConcatDistinct(a: seq<PendingQueue>, b: seq<PendingQueue>)
    requires DistinctKeys(a + b)
    ensures DistinctKeys(a) && DistinctKeys(b)
    ensures forall i, j :: 0 <= i < |a| && 0 <= j < |b| ==> a[i].key != b[j].key
  {
    var p := a + b;
    assert forall j :: 0 <= j < |a| ==> a[j] == p[j];
    assert forall j :: 0 <= j < |b| ==> b[j] == p[|a| + j];
  }

  lemma NoQueue(pending: seq<PendingQueue>, k: Key)
    requires forall j :: 0 <= j < |pending| ==> pending[j].key != k
    ensures MessagesFor(pending, k) == []
  {
  }

  lemma ConcatLookup(a: seq<PendingQueue>, b: seq<PendingQueue>, k: Key)
    requires DistinctKeys(a + b)
    ensures DistinctKeys(a) && DistinctKeys(b)
    ensures MessagesFor(a + b, k) == MessagesFor(a, k) + MessagesFor(b, k)
  {
    var p := a + b;
    ConcatDistinct(a, b);
    var i := IndexOf(p, k);
    if i < |a| {
      assert p[i] == a[i];
      MessagesOf(a, i);
      NoQueue(b, k);
    } else {
      forall j | 0 <= j < |a|
        ensures a[j].key != k
      {
        assert p[j] == a[j];
      }
      NoQueue(a, k);
      if i < |p| {
        assert p[i] == b[i - |a|];
        MessagesOf(b, i - |a|);
      } else {
        forall j | 0 <= j < |b|
          ensures b[j].key != k
        {
          assert p[|a| + j] == b[j];
        }
        NoQueue(b, k);
      }
    }
  }

  lemma DistinctMiddle(a: seq<PendingQueue>, q: PendingQueue, b: seq<PendingQueue>)
    requires DistinctKeys(a + [q] + b)
    ensures DistinctKeys(a + [q]) && DistinctKeys(a + b)
    ensures forall j :: 0 <= j < |a| ==> a[j].key != q.key
    ensures forall j :: 0 <= j < |b| ==> b[j].key != q.key
  {
    var p := a + [q] + b;
    assert p[|a|] == q;
    assert forall j :: 0 <= j < |a| ==> a[j] == p[j];
    assert forall j :: 0 <= j < |b| ==> b[j] == p[|a| + 1 + j];
    assert forall j :: 0 <= j < |a| + 1 ==> (a + [q])[j] == p[j];
    assert forall j :: 0 <= j < |a + b| ==> (a + b)[j] == p[if j < |a| then j else j + 1];
  }

  lemma RemoveMiddle(a: seq<PendingQueue>, q: PendingQueue, b: seq<PendingQueue>, k: Key)
    requires DistinctKeys(a + [q] + b)
    ensures MessagesFor(a + b, k) == if k == q.key then [] else MessagesFor(a + [q] + b, k)
  {
    DistinctMiddle(a, q, b);
    ConcatLookup(a + [q], b, k);
    ConcatLookup(a, [q], k);
    ConcatLookup(a, b, k);
  }

  lemma WithoutLookup(pending: seq<PendingQueue>, k: Key, k': Key)
    requires DistinctKeys(pending)
    ensures DistinctKeys(Without(pending, k))
    ensures MessagesFor(Without(pending, k), k') == if k' == k then [] else MessagesFor(pending, k')
  {
    var i := IndexOf(pending, k);
    if i < |pending| {
      var a, q, b := pending[..i], pending[i], pending[i + 1..];
      assert pending == a + [q] + b;
      DistinctMiddle(a, q, b);
      RemoveMiddle(a, q, b, k');
    }
  }

  lemma QueuedOrder(pending: seq<PendingQueue>, k: Key, now: nat, m: Message)
    requires DistinctKeys(pending) && SortedByCreation(pending)
    requires forall q :: q in pending ==> q.createTime <= now
    ensures DistinctKeys(Queued(pending, k, now, m)) && SortedByCreation(Queued(pending, k, now, m))
    ensures forall q :: q in Queued(pending, k, now, m) ==>
      q in pending || (q.key == k && q.createTime <= now
                       && (q.messages == [m] || exists p :: p in pending && q.messages == p.messages + [m]))
  {
  }

  lemma SuffixOrder(a: seq<PendingQueue>, b: seq<PendingQueue>)
    requires DistinctKeys(a + b) && SortedByCreation(a + b)
    ensures DistinctKeys(b) && SortedByCreation(b)
  {
    assert forall j :: 0 <= j < |b| ==> b[j] == (a + b)[|a| + j];
  }

  lemma KeptOrder(pending: seq<PendingQueue>, now: nat)
    requires DistinctKeys(pending) && SortedByCreation(pending)
    ensures DistinctKeys(Kept(pending, now)) && SortedByCreation(Kept(pending, now))
    ensures forall q :: q in Kept(pending, now) ==> q in pending
  {
    ExpiryDropsPrefix(pending, now);
    SuffixOrder(Dropped(pending, now), Kept(pending, now));
    KeptDroppedMembers(pending, now);
  }

  lemma QueuedLookup(pending: seq<PendingQueue>, k: Key, now: nat, m: Message, k': Key)
    requires DistinctKeys(pending)
    ensures DistinctKeys(Queued(pending, k, now, m))
    ensures MessagesFor(Queued(pending, k, now, m), k')
         == if k' == k then MessagesFor(pending, k) + [m] else MessagesFor(pending, k')
  {
    var w := Queued(pending, k, now, m);
    var i := IndexOf(pending, k);
    if i < |pending| {
      assert forall j :: 0 <= j < |w| ==> w[j].key == pending[j].key;
      SameKeys(pending, w, k');
    } else {
      ConcatLookup(pending, [PendingQueue(k, now, [m])], k');
    }
  }

  lemma {:induction false} SameKeys(a: seq<PendingQueue>, b: seq<PendingQueue>, k: Key)
    requires |a| == |b| && forall j :: 0 <= j < |a| ==> a[j].key == b[j].key
    ensures IndexOf(a, k) == IndexOf(b, k)
  {
  }

  lemma KeptLookup(pending: seq<PendingQueue>, now: nat, k: Key)
    requires DistinctKeys(pending) && SortedByCreation(pending)
    ensures DistinctKeys(Dropped(pending, now)) && DistinctKeys(Kept(pending, now))
    ensures MessagesFor(pending, k) == MessagesFor(Dropped(pending, now), k) + MessagesFor(Kept(pending, now), k)
  {
    ExpiryDropsPrefix(pending, now);
    ConcatLookup(Dropped(pending, now), Kept(pending, now), k);
  }
}
