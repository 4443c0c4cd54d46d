/**
 Trickled candidates are applied once and in order: what a session is given is a contiguous segment
 of what arrived for its key.
 */
module CandidateOrder {
  import opened Samples
  import opened CallLog
  import opened PendingQueues
  import opened SessionRegistry
  import opened RegistryCalls
  import opened RegistryInvariants
  import SessionScan

  /** What session `h` was given for key `k` is the segment of the settled candidates that starts at `b`. */
  ghost predicate Segment(log: seq<Call>, k: Key, h: Handle, b: nat) {
    var given, settled := SubmittedTo(log, k, h), Settled(log, k);
    b + |given| <= |settled| && given == settled[b..b + |given|]
  }

  /** The segment reaches up to the last settled candidate. */
  ghost predicate UpToDate(log: seq<Call>, k: Key, h: Handle, b: nat) {
    b + |SubmittedTo(log, k, h)| == |Settled(log, k)|
  }

  ghost predicate PairOk(s: State, k: Key, h: Handle) {
    && ((k, h) in s.base ==>
      && h < |s.sessions|
      && (h in s.list ==> k in s.table && s.table[k] == h)
      && Segment(s.log, k, h, s.base[(k, h)]))
    && ((k, h) !in s.base ==> SubmittedTo(s.log, k, h) == [])
    && (k in s.table && s.table[k] == h ==> (k, h) in s.base && UpToDate(s.log, k, h, s.base[(k, h)]))
  }

  ghost predicate Contiguous(s: State) {
    forall k, h :: PairOk(s, k, h)
  }

  /** Candidates of `k` settled by a step go to its session, if it has one during the step. */
  ghost predicate GoesTo(s: State, s': State, k: Key, h: Handle, y: seq<nat>, z: seq<nat>) {
    && Settled(s'.log, k) == Settled(s.log, k) + y
    && SubmittedTo(s'.log, k, h) == SubmittedTo(s.log, k, h) + z
    && z == (if k in s.table && s.table[k] == h then y
             else if k !in s.table && k in s'.table && s'.table[k] == h then y
             else [])
  }

  lemma OfferGoesTo(s: State, key: Key, peer: PeerId, result: OfferResult, rejected: set<nat>, k: Key, h: Handle)
    requires QueueFits(s, key)
    requires Drains(s, key, result) ==> !Rejects(MessagesFor(s.pending, key), rejected)
    ensures GoesTo(s, OfferStep(s, key, peer, result, rejected), k, h,
      OfferSettles(s, key, result, k),
      if Drains(s, key, result) && k == key && h == |s.sessions| then Ids(MessagesFor(s.pending, key)) else [])
  {
    var calls := OfferCalls(s, key, result, rejected);
    OfferProject(s, key, result, rejected, k, h);
    SettledConcat(s.log, calls, k);
    SubmittedToConcat(s.log, calls, k, h);
  }

  lemma AnswerGoesTo(s: State, key: Key, described: bool, rejected: set<nat>, k: Key, h: Handle)
    requires s.list != []
    requires QueueFits(s, key)
    requires described && key !in s.table ==> !Rejects(MessagesFor(s.pending, key), rejected)
    ensures GoesTo(s, AnswerStep(s, key, described, rejected), k, h,
      Settled(AnswerCalls(s, key, described, rejected), k),
      SubmittedTo(AnswerCalls(s, key, described, rejected), k, h))
  {
    var calls := AnswerCalls(s, key, described, rejected);
    AnswerProject(s, key, described, rejected, k, h);
    SettledConcat(s.log, calls, k);
    SubmittedToConcat(s.log, calls, k, h);
  }

  lemma CandidateGoesTo(s: State, key: Key, now: nat, ok: bool, k: Key, h: Handle)
    ensures GoesTo(s, CandidateStep(s, key, now, ok), k, h,
      Settled(CandidateCalls(s, key, ok), k), SubmittedTo(CandidateCalls(s, key, ok), k, h))
  {
    var calls := CandidateCalls(s, key, ok);
    CandidateProject(s, key, ok, k, h);
    SettledConcat(s.log, calls, k);
    SubmittedToConcat(s.log, calls, k, h);
  }

  lemma ExpireGoesTo(s: State, now: nat, k: Key, h: Handle)
    requires PendingOk(s)
    ensures GoesTo(s, ExpireStep(s, now), k, h, Ids(MessagesFor(Dropped(s.pending, now), k)), [])
  {
    var dropped := Dropped(s.pending, now);
    KeptLookup(s.pending, now, k);
    PendingAreCandidates(s, k);
    DropProject(dropped, k, h);
    SettledConcat(s.log, DropCalls(dropped), k);
    SubmittedToConcat(s.log, DropCalls(dropped), k, h);
  }

  lemma StepGoesTo(crc: PeerId -> Key, s: State, e: Event, k: Key, h: Handle) returns (y: seq<nat>, z: seq<nat>)
    requires PendingOk(s) && Enabled(s, e) && !DrainFails(crc, s, e)
    ensures GoesTo(s, Step(crc, s, e), k, h, y, z)
  {
    y, z := [], [];
    match e
    case Offer(peer, result, rejected) =>
      var key := crc(peer);
      PendingAreCandidates(s, key);
      OfferGoesTo(s, key, peer, result, rejected, k, h);
      y := OfferSettles(s, key, result, k);
      z := if Drains(s, key, result) && k == key && h == |s.sessions| then Ids(MessagesFor(s.pending, key)) else [];
    case Answer(peer, described, rejected) =>
      PendingAreCandidates(s, crc(peer));
      AnswerGoesTo(s, crc(peer), described, rejected, k, h);
      y := Settled(AnswerCalls(s, crc(peer), described, rejected), k);
      z := SubmittedTo(AnswerCalls(s, crc(peer), described, rejected), k, h);
    case Candidate(peer, now, ok) =>
      CandidateGoesTo(s, crc(peer), now, ok, k, h);
      y := Settled(CandidateCalls(s, crc(peer), ok), k);
      z := SubmittedTo(CandidateCalls(s, crc(peer), ok), k, h);
    case Scan =>
      var freed := SessionScan.Removed(s.list, Terminated(s));
      FreeProject(freed, k, h);
      SettledConcat(s.log, FreeCalls(freed), k);
      SubmittedToConcat(s.log, FreeCalls(freed), k, h);
    case Expire(now) =>
      ExpireGoesTo(s, now, k, h);
      y := Ids(MessagesFor(Dropped(s.pending, now), k));
    case _ =>
  }

  lemma SegmentGrows(log: seq<Call>, log': seq<Call>, k: Key, h: Handle, b: nat, y: seq<nat>, z: seq<nat>)
    requires Segment(log, k, h, b)
    requires Settled(log', k) == Settled(log, k) + y
    requires SubmittedTo(log', k, h) == SubmittedTo(log, k, h) + z
    requires z == [] || (z == y && UpToDate(log, k, h, b))
    ensures Segment(log', k, h, b)
    ensures z == y && UpToDate(log, k, h, b) ==> UpToDate(log', k, h, b)
  {
  }

  /** What a step does to the registration of the pair (k, h): nothing, register it, or unregister it. */
  ghost predicate Registers(s: State, s': State, k: Key, h: Handle) {
    && s'.role == s.role && |s.sessions| <= |s'.sessions|
    && ((k, h) in s.base ==> (k, h) in s'.base && s'.base[(k, h)] == s.base[(k, h)])
    && ((k, h) in s'.base && (k, h) !in s.base ==>
      && k !in s.table && k in s'.table && s'.table[k] == h && h < |s'.sessions|
      && s'.base[(k, h)] == |Settled(s.log, k)|)
    && (k in s'.table && s'.table[k] == h ==>
      (k in s.table && s.table[k] == h) || (k !in s.table && (k, h) !in s.base && (k, h) in s'.base))
    && ((k, h) in s'.base && h in s'.list ==> k in s'.table && s'.table[k] == h)
  }

  lemma OfferRegisters(s: State, key: Key, peer: PeerId, result: OfferResult, rejected: set<nat>, k: Key, h: Handle)
    requires (k, h) in s.base ==> h < |s.sessions| && (h in s.list ==> k in s.table && s.table[k] == h)
    ensures Registers(s, OfferStep(s, key, peer, result, rejected), k, h)
  {
    var s', n := OfferStep(s, key, peer, result, rejected), |s.sessions|;
    if Drains(s, key, result) {
      assert s'.table == s.table[key := n] && s'.base == s.base[(key, n) := |Settled(s.log, key)|];
    } else {
      assert s'.table == s.table && s'.base == s.base;
    }
  }

  lemma StepRegisters(crc: PeerId -> Key, s: State, e: Event, k: Key, h: Handle)
    requires ListOk(s) && TableOk(crc, s) && Enabled(s, e)
    requires (k, h) in s.base ==> h < |s.sessions| && (h in s.list ==> k in s.table && s.table[k] == h)
    ensures Registers(s, Step(crc, s, e), k, h)
  {
    match e
    case Offer(peer, result, rejected) => OfferRegisters(s, crc(peer), peer, result, rejected, k, h);
    case Answer(_, _, _) => assert s.list[0] in s.list;
    case Scan =>
      ScanListed(s);
      ScanTable(crc, s);
    case _ =>
  }

  lemma StepKeepsPair(crc: PeerId -> Key, s: State, e: Event, k: Key, h: Handle)
    requires Inv(crc, s) && Enabled(s, e) && !DrainFails(crc, s, e)
    requires PairOk(s, k, h)
    ensures PairOk(Step(crc, s, e), k, h)
  {
    var s' := Step(crc, s, e);
    var y, z := StepGoesTo(crc, s, e, k, h);
    StepRegisters(crc, s, e, k, h);
    if (k, h) in s.base {
      SegmentGrows(s.log, s'.log, k, h, s.base[(k, h)], y, z);
    } else if (k, h) in s'.base {
      SegmentGrows(s.log, s'.log, k, h, |Settled(s.log, k)|, y, z);
    }
  }

  lemma {:induction false} RunKeepsContiguous(crc: PeerId -> Key, s: State, es: seq<Event>)
    requires Inv(crc, s) && Contiguous(s)
    requires IsRun(crc, s, es) && DrainsSucceed(crc, s, es)
    ensures Contiguous(Run(crc, s, es))
    decreases es
  {
    if es != [] {
      StepKeepsInv(crc, s, es[0]);
      forall k, h
        ensures PairOk(Step(crc, s, es[0]), k, h)
      {
        StepKeepsPair(crc, s, es[0], k, h);
      }
      RunKeepsContiguous(crc, Step(crc, s, es[0]), es[1..]);
    }
  }

  // ----- every candidate has exactly one fate

  lemma Disjoint(all: seq<nat>, a: seq<nat>, b: seq<nat>)
    requires all == a + b
    requires Ascending(all)
    ensures Ascending(a)
    ensures forall x :: x in a ==> x !in b
    ensures forall x :: x in all <==> x in a || x in b
  {
    assert forall i :: 0 <= i < |a| ==> a[i] == all[i];
    assert forall i :: 0 <= i < |b| ==> b[i] == all[|a| + i];
  }

  /** A candidate arrived for one key only. */
  ghost predicate OneKey(s: State) {
    forall k, k' :: k != k' ==> Apart(Arrivals(s.log, k), Arrivals(s.log, k'))
  }

  ghost predicate Apart(a: seq<nat>, b: seq<nat>) {
    forall x :: x in a ==> x !in b
  }

  lemma StepKeepsOneKey(crc: PeerId -> Key, s: State, e: Event)
    requires Inv(crc, s) && Enabled(s, e) && OneKey(s)
    ensures OneKey(Step(crc, s, e))
  {
    var s' := Step(crc, s, e);
    forall k, k' | k != k'
      ensures Apart(Arrivals(s'.log, k), Arrivals(s'.log, k'))
    {
      var x, y := StepProgress(crc, s, e, k);
      var x', y' := StepProgress(crc, s, e, k');
      assert Apart(Arrivals(s.log, k), Arrivals(s.log, k'));
      NewApart(Arrivals(s.log, k), Arrivals(s.log, k'), x, x', s.arrived);
    }
  }

  lemma NewApart(a: seq<nat>, b: seq<nat>, x: seq<nat>, y: seq<nat>, next: nat)
    requires Apart(a, b) && Increasing(a, next) && Increasing(b, next)
    requires (x == [] || x == [next]) && (y == [] || y == [next]) && (x == [] || y == [])
    ensures Apart(a + x, b + y)
  {
  }

  lemma {:induction false} RunKeepsOneKey(crc: PeerId -> Key, s: State, es: seq<Event>)
    requires Inv(crc, s) && OneKey(s) && IsRun(crc, s, es)
    ensures OneKey(Run(crc, s, es))
    decreases es
  {
    if es != [] {
      StepKeepsInv(crc, s, es[0]);
      StepKeepsOneKey(crc, s, es[0]);
      RunKeepsOneKey(crc, Step(crc, s, es[0]), es[1..]);
    }
  }

  /** Of two keys, the candidates that arrived are different ones, and so are those settled and queued. */
  lemma KeysShareNothing(crc: PeerId -> Key, role: Role, es: seq<Event>, k: Key, k': Key)
    requires IsRun(crc, Init(role), es) && k != k'
    ensures var s := Run(crc, Init(role), es);
      && (forall x :: x in Arrivals(s.log, k) ==> x !in Arrivals(s.log, k'))
      && (forall x :: x in Settled(s.log, k) ==>
        x !in Settled(s.log, k') && x !in Ids(MessagesFor(s.pending, k')))
  {
    InitInv(crc, role);
    RunKeepsOneKey(crc, Init(role), es);
    var s := Run(crc, Init(role), es);
    assert Apart(Arrivals(s.log, k), Arrivals(s.log, k'));
    EachCandidateOnce(crc, role, es, k);
    EachCandidateOnce(crc, role, es, k');
  }

  lemma AscendingPrefix(a: seq<nat>, b: seq<nat>)
    requires Ascending(a + b)
    ensures Ascending(a)
    ensures forall x, y :: x in a && y in b ==> x < y
  {
    assert forall i :: 0 <= i < |a| ==> a[i] == (a + b)[i];
    assert forall i :: 0 <= i < |b| ==> b[i] == (a + b)[|a| + i];
  }

  /** `part` holds some of `all`, in ascending order. */
  ghost predicate AscendingPart(part: seq<nat>, all: seq<nat>) {
    Ascending(part) && forall x :: x in part ==> x in all
  }

  lemma PartGrows(part: seq<nat>, all: seq<nat>, z: seq<nat>, y: seq<nat>)
    requires AscendingPart(part, all) && Ascending(all + y)
    requires z == [] || (z == y && |y| == 1)
    ensures AscendingPart(part + z, all + y)
  {
    AscendingPrefix(all, y);
    var grown := part + z;
    forall i, j | 0 <= i < j < |grown|
      ensures grown[i] < grown[j]
    {
      assert grown[i] == part[i] && part[i] in all;
      if j == |part| {
        assert grown[j] == y[0] && y[0] in y;
      } else {
        assert grown[j] == part[j];
      }
    }
  }

  /** What a session is given is a part, in the same order, of what is settled. */
  lemma {:induction false} GivenIncreases(log: seq<Call>, k: Key, h: Handle)
    requires Ascending(Settled(log, k))
    ensures AscendingPart(SubmittedTo(log, k, h), Settled(log, k))
  {
    if log != [] {
      var before, c := log[..|log| - 1], log[|log| - 1];
      var y := if (c.Submitted? || c.Discarded?) && c.key == k then [c.id] else [];
      var z := if c.Submitted? && c.key == k && c.session == h then [c.id] else [];
      AscendingPrefix(Settled(before, k), y);
      GivenIncreases(before, k, h);
      PartGrows(SubmittedTo(before, k, h), Settled(before, k), z, y);
    }
  }

  /**
   In every run, with failing drains too, a session is given the candidates of a key in the order of
   their arrival, and none of them twice.
   */
  lemma NeverOutOfOrder(crc: PeerId -> Key, role: Role, es: seq<Event>, k: Key, h: Handle)
    requires IsRun(crc, Init(role), es)
    ensures var log := Run(crc, Init(role), es).log;
      var arrived, given := Arrivals(log, k), SubmittedTo(log, k, h);
      && Ascending(arrived)
      && Ascending(given)
      && (forall x :: x in given ==> x in arrived)
  {
    EachCandidateOnce(crc, role, es, k);
    GivenIncreases(Run(crc, Init(role), es).log, k, h);
    InitInv(crc, role);
    RunKeepsInv(crc, Init(role), es);
    var s := Run(crc, Init(role), es);
    assert Increasing(Arrivals(s.log, k), s.arrived);
  }

  /**
   In every run, with failing drains too: a candidate that arrived for a key was settled, that is
   submitted or discarded, exactly once, or else it is still queued; and nothing else was settled.
   */
  lemma EachCandidateOnce(crc: PeerId -> Key, role: Role, es: seq<Event>, k: Key)
    requires IsRun(crc, Init(role), es)
    ensures var s := Run(crc, Init(role), es);
      var settled, queued := Settled(s.log, k), Ids(MessagesFor(s.pending, k));
      && (forall x :: x in Arrivals(s.log, k) <==> x in settled || x in queued)
      && (forall x :: x in settled ==> x !in queued)
      && Ascending(settled)
  {
    InitInv(crc, role);
    RunKeepsInv(crc, Init(role), es);
    var s := Run(crc, Init(role), es);
    assert HistoryOf(s, k) && Increasing(Arrivals(s.log, k), s.arrived);
    Disjoint(Arrivals(s.log, k), Settled(s.log, k), Ids(MessagesFor(s.pending, k)));
  }

  /** Candidates are discarded only by expiry, by an offer that finds the list full, or by a failing drain. */
  lemma StepDiscards(crc: PeerId -> Key, s: State, e: Event, i: nat)
    requires Enabled(s, e)
    ensures s.log <= Step(crc, s, e).log
    ensures |s.log| <= i < |Step(crc, s, e).log| && Step(crc, s, e).log[i].Discarded? ==>
      || e.Expire?
      || (e.Offer? && |s.list| == MAX_SESSIONS && crc(e.peer) !in s.table)
      || DrainFails(crc, s, e)
  {
    match e
    case Offer(peer, result, rejected) =>
      var calls := OfferCalls(s, crc(peer), result, rejected);
      if Drains(s, crc(peer), result) && !DrainFails(crc, s, e) {
        DrainDiscards(crc(peer), |s.sessions|, MessagesFor(s.pending, crc(peer)), rejected);
      }
      NewCall(s.log, calls, i);
    case Answer(peer, described, rejected) =>
      if !Rejects(MessagesFor(s.pending, crc(peer)), rejected) {
        DrainDiscards(crc(peer), s.list[0], MessagesFor(s.pending, crc(peer)), rejected);
      }
      NewCall(s.log, AnswerCalls(s, crc(peer), described, rejected), i);
    case Candidate(peer, now, ok) => NewCall(s.log, CandidateCalls(s, crc(peer), ok), i);
    case Scan =>
      FreeProject(SessionScan.Removed(s.list, Terminated(s)), 0, 0);
      NewCall(s.log, FreeCalls(SessionScan.Removed(s.list, Terminated(s))), i);
    case _ =>
  }

  lemma NewCall(log: seq<Call>, calls: seq<Call>, i: nat)
    ensures |log| <= i < |log + calls| ==> (log + calls)[i] in calls
  {
  }

  lemma {:induction false} DrainDiscards(k: Key, h: Handle, msgs: seq<Message>, rejected: set<nat>)
    requires !Rejects(msgs, rejected)
    ensures forall c :: c in DrainCalls(k, h, msgs, rejected) ==> c.Submitted?
  {
    if msgs != [] {
      assert msgs[0] in msgs;
      DrainDiscards(k, h, msgs[1..], rejected);
    }
  }

  // ----- what a session was given

  /**
   The candidates of `k` arrived in increasing order; session `h` was given a contiguous segment of
   them, starting with the first one not settled when `h` was put into the table, and all of them
   from there on if `h` still is in the table; it was given none if it never was in the table.
   */
  ghost predicate InOrder(s: State, k: Key, h: Handle) {
    var arrived, given := Arrivals(s.log, k), SubmittedTo(s.log, k, h);
    && Ascending(arrived)
    && ((k, h) !in s.base ==> given == [])
    && ((k, h) in s.base ==>
      var b := s.base[(k, h)];
      && b + |given| <= |arrived|
      && given == arrived[b..b + |given|]
      && (k in s.table && s.table[k] == h ==> b + |given| == |arrived|))
    && (k in s.table && s.table[k] == h ==> (k, h) in s.base)
  }

  /**
   In every run whose drains succeed, what any session was given for any key is a contiguous,
   in-order, duplicate-free segment of the candidates that arrived for that key; and the session that
   is in the table for a key was given every candidate of the key that had not been settled when it
   was put there, and every later one.
   */
  lemma CandidatesInOrder(crc: PeerId -> Key, role: Role, es: seq<Event>, k: Key, h: Handle)
    requires IsRun(crc, Init(role), es) && DrainsSucceed(crc, Init(role), es)
    ensures InOrder(Run(crc, Init(role), es), k, h)
  {
    var s := Run(crc, Init(role), es);
    InitInv(crc, role);
    RunKeepsInv(crc, Init(role), es);
    RunKeepsContiguous(crc, Init(role), es);
    PendingAreCandidates(s, k);
    PairInOrder(s, k, h);
  }

  lemma PairInOrder(s: State, k: Key, h: Handle)
    requires HistoryOf(s, k) && Increasing(Arrivals(s.log, k), s.arrived) && PairOk(s, k, h)
    requires k in s.table ==> MessagesFor(s.pending, k) == []
    ensures InOrder(s, k, h)
  {
  }

}
