/** What every step of the session registry keeps, whatever the peers and the library do. */
module RegistryInvariants {
  import opened Samples
  import opened CallLog
  import opened PendingQueues
  import opened SessionRegistry
  import opened RegistryCalls
  import SessionScan

  /** The list holds distinct allocated sessions, never more than the array has slots. */
  ghost predicate ListOk(s: State) {
    && Distinct(s.list)
    && |s.list| <= MAX_SESSIONS
    && forall h :: h in s.list ==> h < |s.sessions|
  }

  /** A session is listed until it is freed, and it is freed at most once: none leaks. */
  ghost predicate FreeOk(s: State) {
    && (forall h :: 0 <= h < |s.sessions| ==> (h in s.list <==> Freed(h) !in s.log))
    && (forall c :: c in s.log && c.Freed? ==> c.session < |s.sessions|)
    && SingleFree(s.log)
  }

  /**
   Sessions in the table have a remote description; a master files each listed session under its own
   key. An answer may file it under another key as well.
   */
  ghost predicate TableOk(crc: PeerId -> Key, s: State) {
    && (forall k :: k in s.table ==> s.table[k] < |s.sessions| && Described(s.table[k], true) in s.log)
    && (s.role == Master ==>
      forall h :: h in s.list ==> KeyOf(crc, s, h) in s.table && s.table[KeyOf(crc, s, h)] == h)
  }

  /**
   At most one queue per key, none for a key of the table, each holding candidates only and at least
   one, in order of creation.
   */
  ghost predicate PendingOk(s: State) {
    && DistinctKeys(s.pending)
    && SortedByCreation(s.pending)
    && forall q :: q in s.pending ==> WellFilled(q) && q.key !in s.table && q.createTime <= s.clock
  }

  /** Of each key, the candidates settled so far and then those still queued are those that arrived, in order. */
  ghost predicate Conserved(s: State) {
    forall k :: HistoryOf(s, k)
  }

  ghost predicate HistoryOf(s: State, k: Key) {
    Arrivals(s.log, k) == Settled(s.log, k) + Ids(MessagesFor(s.pending, k))
  }

  ghost predicate Ascending(ids: seq<nat>) {
    forall i, j :: 0 <= i < j < |ids| ==> ids[i] < ids[j]
  }

  ghost predicate Increasing(ids: seq<nat>, bound: nat) {
    && Ascending(ids)
    && forall x :: x in ids ==> x < bound
  }

  /** Candidates are numbered as they arrive, so that equal numbers are the same message. */
  ghost predicate Numbered(s: State) {
    forall k :: Increasing(Arrivals(s.log, k), s.arrived)
  }

  ghost predicate Inv(crc: PeerId -> Key, s: State) {
    ListOk(s) && FreeOk(s) && TableOk(crc, s) && PendingOk(s) && Conserved(s) && Numbered(s)
  }

  // ----- list and frees

  lemma PendingAreCandidates(s: State, k: Key)
    requires PendingOk(s)
    ensures AllCandidates(MessagesFor(s.pending, k))
    ensures k in s.table ==> MessagesFor(s.pending, k) == []
  {
  }

  /** An offer frees the session it has allocated unless that session gets listed. */
  lemma OfferFrees(s: State, k: Key, result: OfferResult, rejected: set<nat>)
    ensures var calls := OfferCalls(s, k, result, rejected);
      && (forall c :: c in calls && c.Freed? ==> c.session == |s.sessions|)
      && (Freed(|s.sessions|) in calls <==>
          k !in s.table && |s.list| != MAX_SESSIONS
          && (result != Handled || Rejects(MessagesFor(s.pending, k), rejected)))
      && SingleFree(calls)
  {
    var msgs, h := MessagesFor(s.pending, k), |s.sessions|;
    DiscardsProject(k, msgs, k, 0);
    DrainMembers(k, h, msgs, rejected);
    if k !in s.table && |s.list| != MAX_SESSIONS && result == Handled {
      var drain := [Described(h, true)] + DrainCalls(k, h, msgs, rejected);
      var end := if Rejects(msgs, rejected) then [Freed(h)] else [];
      FreesAtEnd(drain, end, h);
    }
  }

  lemma FreesAtEnd(drain: seq<Call>, end: seq<Call>, h: Handle)
    requires forall c :: c in drain ==> !c.Freed?
    requires end == [] || end == [Freed(h)]
    ensures SingleFree(drain + end)
    ensures Freed(h) in drain + end <==> end != []
    ensures forall c :: c in drain + end && c.Freed? ==> c.session == h
  {
    assert SingleFree(drain) by {
      assert forall i :: 0 <= i < |drain| ==> drain[i] in drain;
    }
    SingleFreeAppend(drain, end);
  }

  lemma ExtendFree(s: State, s': State, calls: seq<Call>)
    requires FreeOk(s)
    requires s'.log == s.log + calls
    requires |s.sessions| <= |s'.sessions| <= |s.sessions| + 1
    requires SingleFree(calls)
    requires forall c :: c in calls && c.Freed? ==> c.session == |s.sessions| < |s'.sessions|
    requires forall h :: 0 <= h < |s.sessions| ==> (h in s'.list <==> h in s.list)
    requires |s.sessions| < |s'.sessions| ==> (|s.sessions| in s'.list <==> Freed(|s.sessions|) !in calls)
    ensures FreeOk(s')
  {
  }

  lemma ScanListed(s: State)
    requires ListOk(s)
    ensures var rest, freed := SessionScan.Scan(s.list, Terminated(s)), SessionScan.Removed(s.list, Terminated(s));
      && Distinct(rest) && Distinct(freed)
      && |rest| + |freed| == |s.list|
      && (forall h :: h in s.list <==> h in rest || h in freed)
      && (forall h :: h in rest ==> h !in freed)
  {
    SessionScan.ScanHalves(s.list, Terminated(s));
    SplitDistinct(s.list, SessionScan.Scan(s.list, Terminated(s)), SessionScan.Removed(s.list, Terminated(s)));
  }

  lemma SplitDistinct(list: seq<Handle>, a: seq<Handle>, b: seq<Handle>)
    requires Distinct(list)
    requires multiset(list) == multiset(a) + multiset(b)
    ensures Distinct(a) && Distinct(b)
    ensures |a| + |b| == |list|
    ensures forall h :: h in list <==> h in a || h in b
    ensures forall h :: h in a ==> h !in b
  {
    assert |multiset(list)| == |multiset(a)| + |multiset(b)|;
    forall h
      ensures multiset(a)[h] + multiset(b)[h] <= 1
      ensures h in list <==> h in a || h in b
      ensures h in a ==> h !in b
    {
      DistinctCount(list, h);
      assert multiset(list)[h] == multiset(a)[h] + multiset(b)[h];
      assert h in list <==> h in multiset(list);
      assert h in a <==> h in multiset(a);
      assert h in b <==> h in multiset(b);
    }
    CountDistinct(a);
    CountDistinct(b);
  }

  lemma {:induction false} DistinctCount(list: seq<Handle>, h: Handle)
    requires Distinct(list)
    ensures multiset(list)[h] <= 1
  {
    if list != [] {
      var n := |list| - 1;
      assert list == list[..n] + [list[n]];
      DistinctCount(list[..n], h);
      assert list[n] !in list[..n];
      assert multiset(list[..n])[list[n]] == 0;
    }
  }

  lemma CountDistinct(list: seq<Handle>)
    requires forall h :: multiset(list)[h] <= 1
    ensures Distinct(list)
  {
    forall i, j | 0 <= i < j < |list|
      ensures list[i] != list[j]
    {
      var a, b := list[..j], list[j..];
      assert list == a + b;
      assert a[i] == list[i] && b[0] == list[j];
      assert multiset(a)[list[i]] > 0 && multiset(b)[list[j]] > 0;
      assert multiset(list)[list[j]] == multiset(a)[list[j]] + multiset(b)[list[j]];
    }
  }

  // ----- list, frees and table, event by event

  /** Filing one more described session under its own key keeps the table. */
  lemma TableGrows(crc: PeerId -> Key, s: State, s': State, h: Handle)
    requires ListOk(s) && TableOk(crc, s)
    requires s'.role == s.role && s.sessions <= s'.sessions
    requires forall c :: c in s.log ==> c in s'.log
    requires s'.table == s.table || (h == |s.sessions| < |s'.sessions| && Described(h, true) in s'.log
                                     && KeyOf(crc, s', h) !in s.table && s'.table == s.table[KeyOf(crc, s', h) := h])
    requires s'.list == s.list || (s'.list == s.list + [h] && s'.table != s.table)
    ensures TableOk(crc, s')
  {
  }

  lemma OfferDescribes(s: State, k: Key, result: OfferResult, rejected: set<nat>)
    requires Drains(s, k, result)
    ensures Described(|s.sessions|, true) in OfferCalls(s, k, result, rejected)
  {
  }

  lemma OfferTable(crc: PeerId -> Key, s: State, peer: PeerId, result: OfferResult, rejected: set<nat>)
    requires ListOk(s) && TableOk(crc, s)
    ensures TableOk(crc, OfferStep(s, crc(peer), peer, result, rejected))
  {
    var k, s' := crc(peer), OfferStep(s, crc(peer), peer, result, rejected);
    assert s'.log == s.log + OfferCalls(s, k, result, rejected);
    if Drains(s, k, result) {
      OfferDescribes(s, k, result, rejected);
    }
    TableGrows(crc, s, s', |s.sessions|);
  }

  lemma OfferStructure(crc: PeerId -> Key, s: State, peer: PeerId, result: OfferResult, rejected: set<nat>)
    requires ListOk(s) && FreeOk(s) && TableOk(crc, s)
    ensures var s' := OfferStep(s, crc(peer), peer, result, rejected);
      ListOk(s') && FreeOk(s') && TableOk(crc, s')
  {
    var s' := OfferStep(s, crc(peer), peer, result, rejected);
    OfferTable(crc, s, peer, result, rejected);
    OfferFrees(s, crc(peer), result, rejected);
    assert |s.sessions| !in s.list;
    ExtendFree(s, s', OfferCalls(s, crc(peer), result, rejected));
  }

  lemma AnswerStructure(crc: PeerId -> Key, s: State, k: Key, described: bool, rejected: set<nat>)
    requires s.list != []
    requires ListOk(s) && FreeOk(s) && TableOk(crc, s)
    ensures var s' := AnswerStep(s, k, described, rejected);
      ListOk(s') && FreeOk(s') && TableOk(crc, s')
  {
    var s', h := AnswerStep(s, k, described, rejected), s.list[0];
    var calls := AnswerCalls(s, k, described, rejected);
    DrainMembers(k, h, MessagesFor(s.pending, k), rejected);
    assert forall c :: c in calls ==> !c.Freed?;
    ExtendFree(s, s', calls);
    AnswerTable(crc, s, k, described, rejected);
  }

  lemma AnswerTable(crc: PeerId -> Key, s: State, k: Key, described: bool, rejected: set<nat>)
    requires s.list != []
    requires ListOk(s) && TableOk(crc, s)
    ensures TableOk(crc, AnswerStep(s, k, described, rejected))
  {
    var s', h, calls := AnswerStep(s, k, described, rejected), s.list[0], AnswerCalls(s, k, described, rejected);
    assert forall c :: c in s'.log <==> c in s.log || c in calls;
    assert Described(h, described) == calls[0];
    assert h in s.list;
  }

  lemma CandidateStructure(crc: PeerId -> Key, s: State, k: Key, now: nat, ok: bool)
    requires ListOk(s) && FreeOk(s) && TableOk(crc, s)
    ensures var s' := CandidateStep(s, k, now, ok);
      ListOk(s') && FreeOk(s') && TableOk(crc, s')
  {
    var s' := CandidateStep(s, k, now, ok);
    var calls := CandidateCalls(s, k, ok);
    ExtendFree(s, s', calls);
    assert forall c :: c in s'.log <==> c in s.log || c in calls;
  }

  lemma ExpireStructure(crc: PeerId -> Key, s: State, now: nat)
    requires ListOk(s) && FreeOk(s) && TableOk(crc, s) && PendingOk(s)
    ensures var s' := ExpireStep(s, now);
      ListOk(s') && FreeOk(s') && TableOk(crc, s')
  {
    var s' := ExpireStep(s, now);
    var calls := DropCalls(Dropped(s.pending, now));
    KeptLookup(s.pending, now, 0);
    DropProject(Dropped(s.pending, now), 0, 0);
    assert SingleFree(calls) by {
      assert forall i :: 0 <= i < |calls| ==> calls[i] in calls;
    }
    ExtendFree(s, s', calls);
    TableGrows(crc, s, s', 0);
  }

  /** A pass takes the freed sessions out of the list and their own keys out of the table, and nothing else. */
  lemma ScanStructure(crc: PeerId -> Key, s: State)
    requires s.role == Master
    requires ListOk(s) && FreeOk(s) && TableOk(crc, s)
    ensures var s' := ScanStep(crc, s);
      && ListOk(s') && FreeOk(s') && TableOk(crc, s')
      && (forall k :: k in s'.table <==> k in s.table && !Unlinks(crc, s, k))
      && (forall k :: k in s'.table ==> s'.table[k] == s.table[k])
  {
    var s' := ScanStep(crc, s);
    var freed := SessionScan.Removed(s.list, Terminated(s));
    ScanListed(s);
    FreeProject(freed, 0, 0);
    FreeCallsSingle(freed);
    SingleFreeAppend(s.log, FreeCalls(freed));
    assert forall c :: c in s'.log <==> c in s.log || c in FreeCalls(freed);
    forall h | 0 <= h < |s'.sessions|
      ensures h in s'.list <==> Freed(h) !in s'.log
    {
      assert Freed(h) in s'.log <==> Freed(h) in s.log || h in freed;
    }
    ScanTable(crc, s);
    assert forall h :: KeyOf(crc, s', h) == KeyOf(crc, s, h);
  }

  /** The pass frees the session in the table under `k`, and `k` is the session's own key. */
  predicate Unlinks(crc: PeerId -> Key, s: State, k: Key)
    requires k in s.table
  {
    PassFrees(s, s.table[k]) && KeyOf(crc, s, s.table[k]) == k
  }

  lemma ScanTable(crc: PeerId -> Key, s: State)
    requires s.role == Master
    requires ListOk(s) && TableOk(crc, s)
    ensures var s' := ScanStep(crc, s);
      && (forall k :: k in s'.table <==> k in s.table && !Unlinks(crc, s, k))
      && (forall k :: k in s'.table ==> s'.table[k] == s.table[k])
  {
    var s' := ScanStep(crc, s);
    var freed := SessionScan.Removed(s.list, Terminated(s));
    ScanListed(s);
    forall k | k in s.table
      ensures k in s'.table <==> !Unlinks(crc, s, k)
    {
      forall x | x in freed && KeyOf(crc, s, x) == k
        ensures s.table[k] == x
      {
      }
    }
  }

  lemma StepStructure(crc: PeerId -> Key, s: State, e: Event)
    requires Inv(crc, s) && Enabled(s, e)
    ensures var s' := Step(crc, s, e); ListOk(s') && FreeOk(s') && TableOk(crc, s')
  {
    match e
    case Offer(peer, result, rejected) => OfferStructure(crc, s, peer, result, rejected);
    case Answer(peer, described, rejected) => AnswerStructure(crc, s, crc(peer), described, rejected);
    case Candidate(peer, now, ok) => CandidateStructure(crc, s, crc(peer), now, ok);
    case Unhandled(_) =>
    case Terminate(h) =>
      var s' := Step(crc, s, e);
      assert forall x :: KeyOf(crc, s', x) == KeyOf(crc, s, x);
    case Scan => ScanStructure(crc, s);
    case Expire(now) => ExpireStructure(crc, s, now);
    case StartViewer(peer) =>
      var s' := Step(crc, s, e);
      assert |s.sessions| !in s.list;
      assert s'.log == s.log + [];
      ExtendFree(s, s', []);
  }

  // ----- pending queues

  lemma DrainedPending(s: State, s': State, k: Key)
    requires PendingOk(s)
    requires s'.pending == Without(s.pending, k) && s'.clock == s.clock
    requires s'.table.Keys <= s.table.Keys + {k}
    ensures PendingOk(s')
  {
  }

  lemma QueuedPending(s: State, k: Key, now: nat, ok: bool)
    requires PendingOk(s) && s.clock <= now
    ensures PendingOk(CandidateStep(s, k, now, ok))
  {
    if k !in s.table {
      QueuedOrder(s.pending, k, now, Message(CandidateMessage, s.arrived));
    }
  }

  lemma StepPending(crc: PeerId -> Key, s: State, e: Event)
    requires PendingOk(s) && Enabled(s, e)
    ensures PendingOk(Step(crc, s, e))
  {
    var s' := Step(crc, s, e);
    match e
    case Offer(peer, result, rejected) =>
      if crc(peer) !in s.table && (|s.list| == MAX_SESSIONS || result == Handled) {
        DrainedPending(s, s', crc(peer));
      }
    case Answer(peer, described, rejected) =>
      if described && crc(peer) !in s.table {
        DrainedPending(s, s', crc(peer));
      }
    case Candidate(peer, now, ok) => QueuedPending(s, crc(peer), now, ok);
    case Expire(now) => KeptOrder(s.pending, now);
    case _ =>
  }

  // ----- candidates

  /** `x` arrived for `k` and `y` was settled, so that the history of `k` is kept. */
  ghost predicate Progress(s: State, s': State, k: Key, x: seq<nat>, y: seq<nat>) {
    && Arrivals(s'.log, k) == Arrivals(s.log, k) + x
    && Settled(s'.log, k) == Settled(s.log, k) + y
    && Ids(MessagesFor(s.pending, k)) + x == y + Ids(MessagesFor(s'.pending, k))
  }

  lemma GlueSeqs(settled: seq<nat>, queued: seq<nat>, x: seq<nat>, y: seq<nat>, queued': seq<nat>)
    requires queued + x == y + queued'
    ensures settled + queued + x == settled + y + queued'
  {
    assert settled + queued + x == settled + (queued + x);
    assert settled + y + queued' == settled + (y + queued');
  }

  lemma ProgressKeepsHistory(s: State, s': State, k: Key, x: seq<nat>, y: seq<nat>)
    requires HistoryOf(s, k) && Progress(s, s', k, x, y)
    ensures HistoryOf(s', k)
  {
    GlueSeqs(Settled(s.log, k), Ids(MessagesFor(s.pending, k)), x, y, Ids(MessagesFor(s'.pending, k)));
  }

  ghost predicate QueueFits(s: State, key: Key) {
    && DistinctKeys(s.pending)
    && AllCandidates(MessagesFor(s.pending, key))
    && (key in s.table ==> MessagesFor(s.pending, key) == [])
  }

  /** What an offer settles of the candidates of `k`: the queue it drains or drops. */
  ghost function OfferSettles(s: State, key: Key, result: OfferResult, k: Key): seq<nat> {
    if k == key && key !in s.table && (|s.list| == MAX_SESSIONS || result == Handled)
    then Ids(MessagesFor(s.pending, key)) else []
  }

  lemma OfferQueue(s: State, key: Key, peer: PeerId, result: OfferResult, rejected: set<nat>, k: Key)
    requires QueueFits(s, key)
    ensures Ids(MessagesFor(s.pending, k))
         == OfferSettles(s, key, result, k) + Ids(MessagesFor(OfferStep(s, key, peer, result, rejected).pending, k))
  {
    var rest := OfferStep(s, key, peer, result, rejected).pending;
    if key !in s.table && (|s.list| == MAX_SESSIONS || result == Handled) {
      assert rest == Without(s.pending, key);
      WithoutLookup(s.pending, key, k);
      assert k == key ==> Ids(MessagesFor(rest, k)) == [];
    } else {
      assert rest == s.pending;
    }
  }

  lemma OfferProgress(s: State, key: Key, peer: PeerId, result: OfferResult, rejected: set<nat>, k: Key)
    requires QueueFits(s, key)
    ensures Progress(s, OfferStep(s, key, peer, result, rejected), k, [], OfferSettles(s, key, result, k))
  {
    var s', calls := OfferStep(s, key, peer, result, rejected), OfferCalls(s, key, result, rejected);
    assert s'.log == s.log + calls;
    OfferProject(s, key, result, rejected, k, 0);
    ArrivalsConcat(s.log, calls, k);
    SettledConcat(s.log, calls, k);
    OfferQueue(s, key, peer, result, rejected, k);
    assert Settled(calls, k) == OfferSettles(s, key, result, k);
  }

  ghost function AnswerSettles(s: State, key: Key, described: bool, k: Key): seq<nat> {
    if k == key && described && key !in s.table then Ids(MessagesFor(s.pending, key)) else []
  }

  lemma AnswerQueue(s: State, key: Key, described: bool, rejected: set<nat>, k: Key)
    requires s.list != []
    requires QueueFits(s, key)
    ensures Ids(MessagesFor(s.pending, k))
         == AnswerSettles(s, key, described, k) + Ids(MessagesFor(AnswerStep(s, key, described, rejected).pending, k))
  {
    var rest := AnswerStep(s, key, described, rejected).pending;
    if described && key !in s.table {
      assert rest == Without(s.pending, key);
      WithoutLookup(s.pending, key, k);
      assert k == key ==> Ids(MessagesFor(rest, k)) == [];
    } else {
      assert rest == s.pending;
    }
  }

  lemma AnswerProgress(s: State, key: Key, described: bool, rejected: set<nat>, k: Key)
    requires s.list != []
    requires QueueFits(s, key)
    ensures Progress(s, AnswerStep(s, key, described, rejected), k, [], AnswerSettles(s, key, described, k))
  {
    var s', calls := AnswerStep(s, key, described, rejected), AnswerCalls(s, key, described, rejected);
    assert s'.log == s.log + calls;
    AnswerProject(s, key, described, rejected, k, 0);
    ArrivalsConcat(s.log, calls, k);
    SettledConcat(s.log, calls, k);
    AnswerQueue(s, key, described, rejected, k);
    assert Settled(calls, k) == AnswerSettles(s, key, described, k);
  }

  lemma CandidateQueue(s: State, key: Key, now: nat, ok: bool, k: Key)
    requires QueueFits(s, key)
    ensures Ids(MessagesFor(s.pending, k)) + (if k == key then [s.arrived] else [])
         == (if k == key && k in s.table then [s.arrived] else [])
            + Ids(MessagesFor(CandidateStep(s, key, now, ok).pending, k))
  {
    var rest := CandidateStep(s, key, now, ok).pending;
    if key in s.table {
      assert rest == s.pending;
    } else {
      var m := Message(CandidateMessage, s.arrived);
      assert rest == Queued(s.pending, key, now, m);
      QueuedLookup(s.pending, key, now, m, k);
      IdsConcat(MessagesFor(s.pending, key), [m]);
    }
  }

  lemma CandidateProgress(s: State, key: Key, now: nat, ok: bool, k: Key)
    requires QueueFits(s, key)
    ensures Progress(s, CandidateStep(s, key, now, ok), k,
      if k == key then [s.arrived] else [], if k == key && k in s.table then [s.arrived] else [])
  {
    var s', calls := CandidateStep(s, key, now, ok), CandidateCalls(s, key, ok);
    assert s'.log == s.log + calls;
    CandidateProject(s, key, ok, k, 0);
    ArrivalsConcat(s.log, calls, k);
    SettledConcat(s.log, calls, k);
    CandidateQueue(s, key, now, ok, k);
  }

  lemma ScanProgress(crc: PeerId -> Key, s: State, k: Key)
    ensures Progress(s, ScanStep(crc, s), k, [], [])
  {
    var freed := SessionScan.Removed(s.list, Terminated(s));
    FreeProject(freed, k, 0);
    ArrivalsConcat(s.log, FreeCalls(freed), k);
    SettledConcat(s.log, FreeCalls(freed), k);
  }

  lemma ExpireProgress(s: State, now: nat, k: Key)
    requires DistinctKeys(s.pending) && SortedByCreation(s.pending)
    ensures Progress(s, ExpireStep(s, now), k, [], Ids(MessagesFor(Dropped(s.pending, now), k)))
  {
    var dropped := Dropped(s.pending, now);
    KeptLookup(s.pending, now, k);
    DropProject(dropped, k, 0);
    ArrivalsConcat(s.log, DropCalls(dropped), k);
    SettledConcat(s.log, DropCalls(dropped), k);
    IdsConcat(MessagesFor(dropped, k), MessagesFor(Kept(s.pending, now), k));
  }

  /** What arrives for `k` in one step, and what is settled in it. */
  lemma StepProgress(crc: PeerId -> Key, s: State, e: Event, k: Key) returns (x: seq<nat>, y: seq<nat>)
    requires PendingOk(s) && Enabled(s, e)
    ensures Progress(s, Step(crc, s, e), k, x, y)
    ensures s.arrived <= Step(crc, s, e).arrived
    ensures x == if e.Candidate? && crc(e.peer) == k then [s.arrived] else []
    ensures x != [] ==> s.arrived < Step(crc, s, e).arrived
  {
    x, y := [], [];
    match e
    case Offer(peer, result, rejected) =>
      PendingAreCandidates(s, crc(peer));
      OfferProgress(s, crc(peer), peer, result, rejected, k);
      y := OfferSettles(s, crc(peer), result, k);
    case Answer(peer, described, rejected) =>
      PendingAreCandidates(s, crc(peer));
      AnswerProgress(s, crc(peer), described, rejected, k);
      y := AnswerSettles(s, crc(peer), described, k);
    case Candidate(peer, now, ok) =>
      PendingAreCandidates(s, crc(peer));
      CandidateProgress(s, crc(peer), now, ok, k);
      x := if k == crc(peer) then [s.arrived] else [];
      y := if k == crc(peer) && k in s.table then [s.arrived] else [];
    case Scan => ScanProgress(crc, s, k);
    case Expire(now) =>
      ExpireProgress(s, now, k);
      y := Ids(MessagesFor(Dropped(s.pending, now), k));
    case _ =>
  }

  lemma IncreasingAppend(ids: seq<nat>, x: seq<nat>, next: nat, bound: nat)
    requires Increasing(ids, next) && next <= bound
    requires x == [] || (x == [next] && next < bound)
    ensures Increasing(ids + x, bound)
  {
    assert forall i :: 0 <= i < |ids| ==> ids[i] in ids;
  }

  // ----- all of it

  lemma StepKeepsInv(crc: PeerId -> Key, s: State, e: Event)
    requires Inv(crc, s) && Enabled(s, e)
    ensures Inv(crc, Step(crc, s, e))
  {
    var s' := Step(crc, s, e);
    StepStructure(crc, s, e);
    StepPending(crc, s, e);
    forall k
      ensures HistoryOf(s', k)
      ensures Increasing(Arrivals(s'.log, k), s'.arrived)
    {
      assert HistoryOf(s, k) && Increasing(Arrivals(s.log, k), s.arrived);
      var x, y := StepProgress(crc, s, e, k);
      ProgressKeepsHistory(s, s', k, x, y);
      IncreasingAppend(Arrivals(s.log, k), x, s.arrived, s'.arrived);
    }
  }

  lemma InitInv(crc: PeerId -> Key, role: Role)
    ensures Inv(crc, Init(role))
  {
  }

  /** Every run of every role keeps the invariant, with failed offers, failed drains and colliding keys. */
  lemma {:induction false} RunKeepsInv(crc: PeerId -> Key, s: State, es: seq<Event>)
    requires Inv(crc, s) && IsRun(crc, s, es)
    ensures Inv(crc, Run(crc, s, es))
    decreases es
  {
    if es != [] {
      StepKeepsInv(crc, s, es[0]);
      RunKeepsInv(crc, Step(crc, s, es[0]), es[1..]);
    }
  }
}
