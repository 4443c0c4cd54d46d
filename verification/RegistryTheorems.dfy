/** Results about whole runs of the session registry. */
module RegistryTheorems {
  import opened Samples
  import opened CallLog
  import opened PendingQueues
  import opened SessionRegistry
  import opened RegistryCalls
  import opened RegistryInvariants
  import SessionScan

  // ----- the table and the list agree exactly when no drain of an offer failed and no answer was filed

  /** Each listed session is in the table under the key of its peer id, and the table holds nothing else. */
  ghost predicate Bijection(crc: PeerId -> Key, s: State) {
    && (forall h :: h in s.list ==> KeyOf(crc, s, h) in s.table && s.table[KeyOf(crc, s, h)] == h)
    && (forall k :: k in s.table ==> s.table[k] in s.list && KeyOf(crc, s, s.table[k]) == k)
  }

  /** The table maps `k` to a session that was freed. */
  ghost predicate Dangling(s: State, k: Key) {
    k in s.table && Freed(s.table[k]) in s.log
  }

  /** The table maps `k`, which is not the key of its peer, to session `h`. */
  predicate Foreign(crc: PeerId -> Key, s: State, k: Key, h: Handle) {
    k in s.table && s.table[k] == h && KeyOf(crc, s, h) != k
  }

  ghost predicate Broken(crc: PeerId -> Key, s: State, k: Key) {
    k in s.table && (Dangling(s, k) || Foreign(crc, s, k, s.table[k]))
  }

  predicate OfferDrainFails(crc: PeerId -> Key, s: State, e: Event) {
    e.Offer? && DrainFails(crc, s, e)
  }

  /** An answer with a new key is accepted, so that the first session of the list is filed under that key. */
  predicate AnswerFiles(crc: PeerId -> Key, s: State, e: Event) {
    e.Answer? && s.list != [] && e.described && crc(e.peer) !in s.table
  }

  predicate Breaks(crc: PeerId -> Key, s: State, e: Event) {
    OfferDrainFails(crc, s, e) || AnswerFiles(crc, s, e)
  }

  predicate NothingBreaks(crc: PeerId -> Key, s: State, es: seq<Event>)
    requires IsRun(crc, s, es)
    decreases es
  {
    es == [] || (!Breaks(crc, s, es[0]) && NothingBreaks(crc, Step(crc, s, es[0]), es[1..]))
  }

  lemma BijectionIffNoneBroken(crc: PeerId -> Key, s: State)
    requires s.role == Master
    requires ListOk(s) && FreeOk(s) && TableOk(crc, s)
    ensures Bijection(crc, s) <==> forall k :: !Broken(crc, s, k)
  {
    forall k | k in s.table
      ensures Broken(crc, s, k) <==> !(s.table[k] in s.list && KeyOf(crc, s, s.table[k]) == k)
    {
    }
  }

  /**
   Which keys dangle after a step: those that did, the key of an offer whose drain fails, and, after a
   pass, the foreign keys of the sessions it frees.
   */
  lemma StepDangling(crc: PeerId -> Key, s: State, e: Event, k: Key)
    requires Inv(crc, s) && Enabled(s, e)
    ensures var s' := Step(crc, s, e);
      && (Dangling(s', k) <==>
          || Dangling(s, k)
          || (OfferDrainFails(crc, s, e) && crc(e.peer) == k)
          || (e.Scan? && k in s.table && PassFrees(s, s.table[k]) && Foreign(crc, s, k, s.table[k])))
      && (Dangling(s, k) ==> s'.table[k] == s.table[k])
  {
    var s' := Step(crc, s, e);
    match e
    case Offer(peer, result, rejected) =>
      OfferDangling(s, crc(peer), peer, result, rejected, k);
    case Answer(peer, described, rejected) =>
      AnswerDangling(s, crc(peer), described, rejected, k);
    case Candidate(peer, now, ok) =>
      FreedAfter(s, s', CandidateCalls(s, crc(peer), ok), k);
    case Scan =>
      ScanDangling(crc, s, k);
    case Expire(now) =>
      KeptLookup(s.pending, now, 0);
      DropProject(Dropped(s.pending, now), 0, 0);
      FreedAfter(s, s', DropCalls(Dropped(s.pending, now)), k);
    case _ =>
  }

  lemma ScanDangling(crc: PeerId -> Key, s: State, k: Key)
    requires s.role == Master && ListOk(s) && FreeOk(s) && TableOk(crc, s)
    ensures var s' := ScanStep(crc, s);
      && (Dangling(s', k) <==>
          Dangling(s, k) || (k in s.table && PassFrees(s, s.table[k]) && Foreign(crc, s, k, s.table[k])))
      && (Dangling(s, k) ==> s'.table[k] == s.table[k])
  {
    var freed := SessionScan.Removed(s.list, Terminated(s));
    ScanStructure(crc, s);
    ScanListed(s);
    FreeProject(freed, 0, 0);
    assert forall h :: Freed(h) in ScanStep(crc, s).log <==> Freed(h) in s.log || h in freed;
  }

  lemma AnswerDangling(s: State, key: Key, described: bool, rejected: set<nat>, k: Key)
    requires s.list != [] && Freed(s.list[0]) !in s.log
    ensures var s' := AnswerStep(s, key, described, rejected);
      && (Dangling(s', k) <==> Dangling(s, k))
      && (Dangling(s, k) ==> s'.table[k] == s.table[k])
  {
    var s', calls := AnswerStep(s, key, described, rejected), AnswerCalls(s, key, described, rejected);
    DrainMembers(key, s.list[0], MessagesFor(s.pending, key), rejected);
    assert forall c :: c in calls ==> !c.Freed?;
    FreedAfter(s, s', calls, k);
  }

  /** Which sessions are filed under a foreign key after a step: those that were, and one that an answer files. */
  lemma StepForeign(crc: PeerId -> Key, s: State, e: Event, k: Key, h: Handle)
    requires s.role == Master && Inv(crc, s) && Enabled(s, e)
    ensures Foreign(crc, Step(crc, s, e), k, h)
       <==> Foreign(crc, s, k, h) || (AnswerFiles(crc, s, e) && crc(e.peer) == k && s.list[0] == h)
  {
    match e
    case Offer(peer, result, rejected) => OfferForeign(crc, s, peer, result, rejected, k, h);
    case Answer(_, _, _) => assert s.list[0] in s.list;
    case Scan => ScanStructure(crc, s);
    case _ =>
  }

  lemma OfferForeign(crc: PeerId -> Key, s: State, peer: PeerId, result: OfferResult, rejected: set<nat>,
                     k: Key, h: Handle)
    requires TableOk(crc, s)
    ensures Foreign(crc, OfferStep(s, crc(peer), peer, result, rejected), k, h) <==> Foreign(crc, s, k, h)
  {
    var s' := OfferStep(s, crc(peer), peer, result, rejected);
    assert s'.table == if Drains(s, crc(peer), result) then s.table[crc(peer) := |s.sessions|] else s.table;
  }

  /** A key is broken after a step iff it was before or the step breaks it. */
  lemma StepBroken(crc: PeerId -> Key, s: State, e: Event, k: Key)
    requires s.role == Master && Inv(crc, s) && Enabled(s, e)
    ensures var s' := Step(crc, s, e);
      && (Broken(crc, s', k) <==> Broken(crc, s, k) || (Breaks(crc, s, e) && crc(e.peer) == k))
      && (Broken(crc, s, k) ==> s'.table[k] == s.table[k])
  {
    var s' := Step(crc, s, e);
    StepDangling(crc, s, e, k);
    if k in s.table {
      StepForeign(crc, s, e, k, s.table[k]);
    }
    if k in s'.table {
      StepForeign(crc, s, e, k, s'.table[k]);
    }
    if AnswerFiles(crc, s, e) {
      StepForeign(crc, s, e, k, s.list[0]);
    }
  }

  lemma OfferDangling(s: State, key: Key, peer: PeerId, result: OfferResult, rejected: set<nat>, k: Key)
    requires forall x :: x in s.table ==> s.table[x] < |s.sessions|
    requires Freed(|s.sessions|) !in s.log
    ensures var s' := OfferStep(s, key, peer, result, rejected);
      && (Dangling(s', k) <==>
          Dangling(s, k) || (key == k && Drains(s, key, result) && Rejects(MessagesFor(s.pending, key), rejected)))
      && (Dangling(s, k) ==> s'.table[k] == s.table[k])
  {
    var s', calls := OfferStep(s, key, peer, result, rejected), OfferCalls(s, key, result, rejected);
    OfferFrees(s, key, result, rejected);
    assert s'.log == s.log + calls;
    FreedAfter(s, s', calls, k);
    assert s'.table == if Drains(s, key, result) then s.table[key := |s.sessions|] else s.table;
  }

  lemma FreedAfter(s: State, s': State, calls: seq<Call>, k: Key)
    requires s'.log == s.log + calls
    ensures forall h :: Freed(h) in s'.log <==> Freed(h) in s.log || Freed(h) in calls
    ensures k in s.table && k in s'.table && s'.table[k] == s.table[k] && Freed(s.table[k]) !in calls ==>
      (Dangling(s', k) <==> Dangling(s, k))
  {
  }

  /**
   Table and list of a master are in bijection at the end of a run iff in it no offer's drain failed
   and no answer with a new key was accepted.
   */
  lemma {:induction false} RegistryIffNothingBreaks(crc: PeerId -> Key, s: State, es: seq<Event>)
    requires s.role == Master && Inv(crc, s) && Bijection(crc, s)
    requires IsRun(crc, s, es)
    ensures var s' := Run(crc, s, es);
      && Distinct(s'.list) && |s'.list| <= MAX_SESSIONS
      && (Bijection(crc, s') <==> NothingBreaks(crc, s, es))
    decreases es
  {
    RunKeepsInv(crc, s, es);
    if es != [] {
      var e, s1 := es[0], Step(crc, s, es[0]);
      StepKeepsInv(crc, s, e);
      BijectionIffNoneBroken(crc, s);
      BijectionIffNoneBroken(crc, s1);
      forall k
        ensures Broken(crc, s1, k) <==> Breaks(crc, s, e) && crc(e.peer) == k
      {
        StepBroken(crc, s, e, k);
      }
      if Breaks(crc, s, e) {
        assert Broken(crc, s1, crc(e.peer));
        BrokenForever(crc, s1, es[1..], crc(e.peer));
        RunKeepsRole(crc, s1, es[1..]);
        RunKeepsInv(crc, s1, es[1..]);
        BijectionIffNoneBroken(crc, Run(crc, s1, es[1..]));
      } else {
        RegistryIffNothingBreaks(crc, s1, es[1..]);
      }
    }
  }

  /** A broken key of a master is lost for good: it keeps its session, and every offer for it is turned away. */
  lemma {:induction false} BrokenForever(crc: PeerId -> Key, s: State, es: seq<Event>, k: Key)
    requires s.role == Master && Inv(crc, s) && Broken(crc, s, k)
    requires IsRun(crc, s, es)
    ensures var s' := Run(crc, s, es);
      && Broken(crc, s', k) && s'.table[k] == s.table[k]
      && (forall e: Event :: e.Offer? && crc(e.peer) == k ==> Step(crc, s', e) == s')
    decreases es
  {
    if es == [] {
      assert s.log + [] == s.log;
    } else {
      StepKeepsInv(crc, s, es[0]);
      StepBroken(crc, s, es[0], k);
      BrokenForever(crc, Step(crc, s, es[0]), es[1..], k);
    }
  }

  lemma {:induction false} RunKeepsRole(crc: PeerId -> Key, s: State, es: seq<Event>)
    requires IsRun(crc, s, es)
    ensures Run(crc, s, es).role == s.role
    decreases es
  {
    if es != [] {
      RunKeepsRole(crc, Step(crc, s, es[0]), es[1..]);
    }
  }

  /**
   After a failed drain the key is lost for good: whatever follows, the table keeps mapping it to
   the freed session, every offer that hashes to it is turned away without effect, and the first
   candidate that hashes to it is submitted to freed memory.
   */
  lemma {:induction false} DanglingForever(crc: PeerId -> Key, s: State, es: seq<Event>, k: Key)
    requires Inv(crc, s) && Dangling(s, k)
    requires IsRun(crc, s, es)
    ensures var s' := Run(crc, s, es);
      && Dangling(s', k) && s'.table[k] == s.table[k] && s'.table[k] !in s'.list
      && (forall e: Event :: e.Offer? && crc(e.peer) == k ==> Step(crc, s', e) == s')
      && (forall e: Event :: e.Candidate? && crc(e.peer) == k && Enabled(s', e) ==>
          !SafeSubmissions(Step(crc, s', e).log))
    decreases es
  {
    if es == [] {
      assert s.log + [] == s.log;
      forall e: Event | e.Candidate? && crc(e.peer) == k && Enabled(s, e)
        ensures !SafeSubmissions(Step(crc, s, e).log)
      {
        var log := Step(crc, s, e).log;
        var n := |s.log| + 1;
        assert log[n] == Submitted(k, s.table[k], s.arrived, e.ok);
        assert log[..n] == s.log + [Arrived(k, s.arrived)];
        assert Freed(log[n].session) in log[..n];
      }
    } else {
      StepKeepsInv(crc, s, es[0]);
      StepDangling(crc, s, es[0], k);
      DanglingForever(crc, Step(crc, s, es[0]), es[1..], k);
    }
  }

  // ----- when candidates reach described, live sessions

  lemma SafeTalk(a: seq<Call>, b: seq<Call>, h: Handle)
    requires forall c :: c in b ==> !c.Freed? && (c.Submitted? ==> c.session == h)
    requires Freed(h) !in a
    requires Described(h, true) in a || (b != [] && b[0] == Described(h, true))
    ensures SafeSubmissions(a + b) <==> SafeSubmissions(a)
  {
    if exists c :: c in b && c.Submitted? {
      forall i | 0 <= i < |b| && b[i].Submitted?
        ensures Described(b[i].session, true) in a + b[..i]
      {
        assert b[i] in b;
        assert i > 0 ==> b[0] in b[..i];
      }
      SafeAppend(a, b, h);
    } else {
      SafeAppendQuiet(a, b);
    }
  }

  /** The candidate of this step would be submitted to a freed session. */
  predicate MeetsDangling(crc: PeerId -> Key, s: State, e: Event) {
    e.Candidate? && crc(e.peer) in s.table && Freed(s.table[crc(e.peer)]) in s.log
  }

  lemma OfferSafety(s: State, k: Key, result: OfferResult, rejected: set<nat>)
    requires Freed(|s.sessions|) !in s.log
    ensures SafeSubmissions(s.log + OfferCalls(s, k, result, rejected)) <==> SafeSubmissions(s.log)
  {
    var h, msgs, calls := |s.sessions|, MessagesFor(s.pending, k), OfferCalls(s, k, result, rejected);
    if Drains(s, k, result) {
      var talk := [Described(h, true)] + DrainCalls(k, h, msgs, rejected);
      var end := if Rejects(msgs, rejected) then [Freed(h)] else [];
      DrainMembers(k, h, msgs, rejected);
      SafeTalk(s.log, talk, h);
      SafeAppendQuiet(s.log + talk, end);
      assert s.log + calls == s.log + talk + end;
    } else {
      DiscardsProject(k, msgs, k, h);
      SafeAppendQuiet(s.log, calls);
    }
  }

  lemma AnswerSafety(s: State, k: Key, described: bool, rejected: set<nat>)
    requires s.list != [] && Freed(s.list[0]) !in s.log
    ensures SafeSubmissions(s.log + AnswerCalls(s, k, described, rejected)) <==> SafeSubmissions(s.log)
  {
    var h := s.list[0];
    var calls := AnswerCalls(s, k, described, rejected);
    DrainMembers(k, h, MessagesFor(s.pending, k), rejected);
    if described {
      SafeTalk(s.log, calls, h);
    } else {
      SafeAppendQuiet(s.log, calls);
    }
  }

  lemma CandidateSafety(s: State, k: Key, ok: bool)
    requires k in s.table ==> Described(s.table[k], true) in s.log
    ensures SafeSubmissions(s.log + CandidateCalls(s, k, ok))
        <==> SafeSubmissions(s.log) && (k in s.table ==> Freed(s.table[k]) !in s.log)
  {
    var calls := CandidateCalls(s, k, ok);
    if k in s.table {
      assert calls[1].Submitted? && calls[1] in calls;
      assert SafeFirst(s.log, calls);
      SafeAppend(s.log, calls, s.table[k]);
    } else {
      SafeAppendQuiet(s.log, calls);
    }
  }

  lemma StepSafety(crc: PeerId -> Key, s: State, e: Event)
    requires Inv(crc, s) && Enabled(s, e)
    ensures SafeSubmissions(Step(crc, s, e).log) <==> SafeSubmissions(s.log) && !MeetsDangling(crc, s, e)
  {
    match e
    case Offer(peer, result, rejected) =>
      OfferSafety(s, crc(peer), result, rejected);
    case Answer(peer, described, rejected) =>
      assert s.list[0] in s.list;
      AnswerSafety(s, crc(peer), described, rejected);
    case Candidate(peer, now, ok) =>
      CandidateSafety(s, crc(peer), ok);
    case Scan =>
      var freed := SessionScan.Removed(s.list, Terminated(s));
      FreeProject(freed, 0, 0);
      SafeAppendQuiet(s.log, FreeCalls(freed));
    case Expire(now) =>
      KeptLookup(s.pending, now, 0);
      DropProject(Dropped(s.pending, now), 0, 0);
      SafeAppendQuiet(s.log, DropCalls(Dropped(s.pending, now)));
    case _ =>
  }

  // ----- events of a run

  /** The state before the `i`-th event. */
  function StateAt(crc: PeerId -> Key, s: State, es: seq<Event>, i: nat): State
    requires IsRun(crc, s, es) && i <= |es|
    decreases es
  {
    if i == 0 then s else StateAt(crc, Step(crc, s, es[0]), es[1..], i - 1)
  }

  lemma {:induction false} StateAtNext(crc: PeerId -> Key, s: State, es: seq<Event>, i: nat)
    requires IsRun(crc, s, es) && i < |es|
    ensures Enabled(StateAt(crc, s, es, i), es[i])
    ensures StateAt(crc, s, es, i + 1) == Step(crc, StateAt(crc, s, es, i), es[i])
    decreases es
  {
    if i > 0 {
      StateAtNext(crc, Step(crc, s, es[0]), es[1..], i - 1);
    }
  }

  lemma {:induction false} StateAtEnd(crc: PeerId -> Key, s: State, es: seq<Event>)
    requires IsRun(crc, s, es)
    ensures StateAt(crc, s, es, |es|) == Run(crc, s, es)
    decreases es
  {
    if es != [] {
      StateAtEnd(crc, Step(crc, s, es[0]), es[1..]);
    }
  }

  lemma {:induction false} StateAtInv(crc: PeerId -> Key, s: State, es: seq<Event>, i: nat)
    requires Inv(crc, s) && IsRun(crc, s, es) && i <= |es|
    ensures Inv(crc, StateAt(crc, s, es, i))
    decreases es
  {
    if i > 0 {
      var s1 := Step(crc, s, es[0]);
      StepKeepsInv(crc, s, es[0]);
      StateAtInv(crc, s1, es[1..], i - 1);
      assert StateAt(crc, s, es, i) == StateAt(crc, s1, es[1..], i - 1);
    }
  }

  lemma {:induction false} StateAtRole(crc: PeerId -> Key, s: State, es: seq<Event>, i: nat)
    requires IsRun(crc, s, es) && i <= |es|
    ensures StateAt(crc, s, es, i).role == s.role
    decreases es
  {
    if i > 0 {
      StepKeepsRole(crc, s, es[0]);
      StateAtRole(crc, Step(crc, s, es[0]), es[1..], i - 1);
    }
  }

  /** What is known of the state before the `n`-th event of a run from the start, and of the event. */
  lemma RunAt(crc: PeerId -> Key, role: Role, es: seq<Event>, n: nat)
    requires IsRun(crc, Init(role), es) && n < |es|
    ensures var s := StateAt(crc, Init(role), es, n);
      && Inv(crc, s) && s.role == role && Enabled(s, es[n])
      && StateAt(crc, Init(role), es, n + 1) == Step(crc, s, es[n])
  {
    InitInv(crc, role);
    StateAtInv(crc, Init(role), es, n);
    StateAtRole(crc, Init(role), es, n);
    StateAtNext(crc, Init(role), es, n);
  }

  lemma StepKeepsRole(crc: PeerId -> Key, s: State, e: Event)
    requires Enabled(s, e)
    ensures Step(crc, s, e).role == s.role
  {
  }

  /** The `i`-th event of a run from the start is an offer for `k` whose drain fails. */
  predicate DrainFailsAt(crc: PeerId -> Key, role: Role, es: seq<Event>, i: nat, k: Key)
    requires IsRun(crc, Init(role), es)
  {
    i < |es| && OfferDrainFails(crc, StateAt(crc, Init(role), es, i), es[i]) && crc(es[i].peer) == k
  }

  /** The `i`-th event is an accepted answer that files session `h` under the new key `k`. */
  predicate FilesAt(crc: PeerId -> Key, role: Role, es: seq<Event>, i: nat, k: Key, h: Handle)
    requires IsRun(crc, Init(role), es)
  {
    && i < |es|
    && var s := StateAt(crc, Init(role), es, i);
      AnswerFiles(crc, s, es[i]) && crc(es[i].peer) == k && s.list[0] == h
  }

  /** The `i`-th event is a pass that frees session `h`. */
  predicate FreesAt(crc: PeerId -> Key, role: Role, es: seq<Event>, i: nat, h: Handle)
    requires IsRun(crc, Init(role), es)
  {
    i < |es| && es[i].Scan? && PassFrees(StateAt(crc, Init(role), es, i), h)
  }

  /** Before the `n`-th event, an offer for `k` had a failing drain. */
  ghost predicate DrainFailedBefore(crc: PeerId -> Key, role: Role, es: seq<Event>, n: nat, k: Key)
    requires IsRun(crc, Init(role), es)
  {
    exists i: nat :: i < n && DrainFailsAt(crc, role, es, i, k)
  }

  /** Before the `n`-th event, an answer filed a session under `k`, and a later pass freed that session. */
  ghost predicate FiledFreedBefore(crc: PeerId -> Key, role: Role, es: seq<Event>, n: nat, k: Key)
    requires IsRun(crc, Init(role), es)
  {
    exists a: nat, p: nat, h ::
      a < p < n && FilesAt(crc, role, es, a, k, h) && FreesAt(crc, role, es, p, h)
  }

  /** In a run of a master, a session is under a foreign key iff an answer has filed it there. */
  lemma {:induction false} ForeignIff(crc: PeerId -> Key, es: seq<Event>, n: nat, k: Key, h: Handle)
    requires IsRun(crc, Init(Master), es) && n <= |es|
    ensures Foreign(crc, StateAt(crc, Init(Master), es, n), k, h) <==> FiledBefore(crc, es, n, k, h)
    decreases n
  {
    if n > 0 {
      ForeignIff(crc, es, n - 1, k, h);
      ForeignNext(crc, es, n - 1, k, h);
      assert FiledBefore(crc, es, n, k, h)
        <==> FiledBefore(crc, es, n - 1, k, h) || FilesAt(crc, Master, es, n - 1, k, h);
    }
  }

  ghost predicate FiledBefore(crc: PeerId -> Key, es: seq<Event>, n: nat, k: Key, h: Handle)
    requires IsRun(crc, Init(Master), es)
  {
    exists a: nat :: a < n && FilesAt(crc, Master, es, a, k, h)
  }

  lemma ForeignNext(crc: PeerId -> Key, es: seq<Event>, n: nat, k: Key, h: Handle)
    requires IsRun(crc, Init(Master), es) && n < |es|
    ensures Foreign(crc, StateAt(crc, Init(Master), es, n + 1), k, h)
       <==> Foreign(crc, StateAt(crc, Init(Master), es, n), k, h) || FilesAt(crc, Master, es, n, k, h)
  {
    RunAt(crc, Master, es, n);
    StepForeign(crc, StateAt(crc, Init(Master), es, n), es[n], k, h);
  }

  lemma FiledFreedNext(crc: PeerId -> Key, role: Role, es: seq<Event>, n: nat, k: Key)
    requires IsRun(crc, Init(role), es) && n < |es|
    ensures var s := StateAt(crc, Init(role), es, n);
      FiledFreedBefore(crc, role, es, n + 1, k) <==>
        || FiledFreedBefore(crc, role, es, n, k)
        || (es[n].Scan? && k in s.table && PassFrees(s, s.table[k]) && Foreign(crc, s, k, s.table[k]))
  {
    var s := StateAt(crc, Init(role), es, n);
    RunAt(crc, role, es, n);
    if es[n].Scan? && k in s.table && PassFrees(s, s.table[k]) && Foreign(crc, s, k, s.table[k]) {
      ForeignIff(crc, es, n, k, s.table[k]);
      assert FreesAt(crc, role, es, n, s.table[k]);
    }
    if FiledFreedBefore(crc, role, es, n + 1, k) {
      var a: nat, p: nat, h :|
        a < p < n + 1 && FilesAt(crc, role, es, a, k, h) && FreesAt(crc, role, es, p, h);
      if p == n {
        ForeignIff(crc, es, n, k, h);
      }
    }
  }

  lemma NothingBefore(crc: PeerId -> Key, role: Role, es: seq<Event>, k: Key)
    requires IsRun(crc, Init(role), es)
    ensures !Dangling(StateAt(crc, Init(role), es, 0), k)
    ensures !DrainFailedBefore(crc, role, es, 0, k) && !FiledFreedBefore(crc, role, es, 0, k)
  {
  }

  lemma DrainFailedNext(crc: PeerId -> Key, role: Role, es: seq<Event>, n: nat, k: Key)
    requires IsRun(crc, Init(role), es)
    ensures DrainFailedBefore(crc, role, es, n + 1, k)
       <==> DrainFailedBefore(crc, role, es, n, k) || DrainFailsAt(crc, role, es, n, k)
  {
  }

  lemma DanglingNext(crc: PeerId -> Key, role: Role, es: seq<Event>, n: nat, k: Key)
    requires IsRun(crc, Init(role), es) && n < |es|
    requires DanglesIff(crc, role, es, n, k)
    ensures DanglesIff(crc, role, es, n + 1, k)
  {
    RunAt(crc, role, es, n);
    StepDangling(crc, StateAt(crc, Init(role), es, n), es[n], k);
    FiledFreedNext(crc, role, es, n, k);
    DrainFailedNext(crc, role, es, n, k);
  }

  ghost predicate DanglesIff(crc: PeerId -> Key, role: Role, es: seq<Event>, n: nat, k: Key)
    requires IsRun(crc, Init(role), es) && n <= |es|
  {
    Dangling(StateAt(crc, Init(role), es, n), k)
    <==> DrainFailedBefore(crc, role, es, n, k) || FiledFreedBefore(crc, role, es, n, k)
  }

  lemma {:induction false} DanglesIffAt(crc: PeerId -> Key, role: Role, es: seq<Event>, n: nat, k: Key)
    requires IsRun(crc, Init(role), es) && n <= |es|
    ensures DanglesIff(crc, role, es, n, k)
    decreases n
  {
    if n == 0 {
      NothingBefore(crc, role, es, k);
    } else {
      DanglesIffAt(crc, role, es, n - 1, k);
      DanglingNext(crc, role, es, n - 1, k);
    }
  }

  /**
   In every run of either role, a key maps to a freed session iff an offer for it had a failing drain,
   or an answer filed a session under it that a later pass freed.
   */
  lemma DanglingIff(crc: PeerId -> Key, role: Role, es: seq<Event>, n: nat, k: Key)
    requires IsRun(crc, Init(role), es) && n <= |es|
    ensures Dangling(StateAt(crc, Init(role), es, n), k)
       <==> DrainFailedBefore(crc, role, es, n, k) || FiledFreedBefore(crc, role, es, n, k)
  {
    DanglesIffAt(crc, role, es, n, k);
  }

  lemma {:induction false} RunSafetyFrom(crc: PeerId -> Key, s: State, es: seq<Event>)
    requires Inv(crc, s) && IsRun(crc, s, es)
    ensures SafeSubmissions(Run(crc, s, es).log)
       <==> SafeSubmissions(s.log) && forall j :: 0 <= j < |es| ==> !MeetsDangling(crc, StateAt(crc, s, es, j), es[j])
    decreases es
  {
    if es != [] {
      var s1 := Step(crc, s, es[0]);
      StepKeepsInv(crc, s, es[0]);
      StepSafety(crc, s, es[0]);
      RunSafetyFrom(crc, s1, es[1..]);
      assert StateAt(crc, s, es, 0) == s;
      assert forall j :: 0 < j < |es| ==> StateAt(crc, s, es, j) == StateAt(crc, s1, es[1..], j - 1);
      assert forall j :: 0 <= j < |es| - 1 ==> StateAt(crc, s1, es[1..], j) == StateAt(crc, s, es, j + 1);
    }
  }

  /**
   In every run of either role, candidates are only ever submitted to described sessions that have not
   been freed, iff no candidate arrives for a key after an offer for that key whose drain failed, or
   after a pass that freed a session which an answer had filed under that key.
   */
  lemma RunSafety(crc: PeerId -> Key, role: Role, es: seq<Event>)
    requires IsRun(crc, Init(role), es)
    ensures SafeSubmissions(Run(crc, Init(role), es).log)
       <==> forall j :: 0 <= j < |es| && es[j].Candidate? ==>
              && !DrainFailedBefore(crc, role, es, j, crc(es[j].peer))
              && !FiledFreedBefore(crc, role, es, j, crc(es[j].peer))
  {
    InitInv(crc, role);
    RunSafetyFrom(crc, Init(role), es);
    forall j | 0 <= j < |es| && es[j].Candidate?
      ensures MeetsDangling(crc, StateAt(crc, Init(role), es, j), es[j]) <==>
          || DrainFailedBefore(crc, role, es, j, crc(es[j].peer))
          || FiledFreedBefore(crc, role, es, j, crc(es[j].peer))
    {
      DanglingIff(crc, role, es, j, crc(es[j].peer));
    }
  }

  lemma BeforeLater(crc: PeerId -> Key, role: Role, es: seq<Event>, m: nat, n: nat, k: Key)
    requires IsRun(crc, Init(role), es) && m <= n
    ensures DrainFailedBefore(crc, role, es, m, k) ==> DrainFailedBefore(crc, role, es, n, k)
    ensures FiledFreedBefore(crc, role, es, m, k) ==> FiledFreedBefore(crc, role, es, n, k)
  {
  }

  lemma NoneDangling(crc: PeerId -> Key, role: Role, es: seq<Event>, k: Key)
    requires IsRun(crc, Init(role), es)
    requires !DrainFailedBefore(crc, role, es, |es|, k) && !FiledFreedBefore(crc, role, es, |es|, k)
    ensures !Dangling(Run(crc, Init(role), es), k)
  {
    StateAtEnd(crc, Init(role), es);
    DanglingIff(crc, role, es, |es|, k);
  }

  /**
   A run from the start submits candidates safely, in either role, if no offer's drain fails in it and
   no pass frees a session that an answer has filed.
   */
  lemma CandidatesAreSafe(crc: PeerId -> Key, role: Role, es: seq<Event>)
    requires IsRun(crc, Init(role), es)
    requires forall k :: !DrainFailedBefore(crc, role, es, |es|, k) && !FiledFreedBefore(crc, role, es, |es|, k)
    ensures SafeSubmissions(Run(crc, Init(role), es).log)
    ensures SingleFree(Run(crc, Init(role), es).log)
    ensures forall k :: !Dangling(Run(crc, Init(role), es), k)
  {
    forall j | 0 <= j < |es| && es[j].Candidate?
      ensures !DrainFailedBefore(crc, role, es, j, crc(es[j].peer))
      ensures !FiledFreedBefore(crc, role, es, j, crc(es[j].peer))
    {
      BeforeLater(crc, role, es, j, |es|, crc(es[j].peer));
    }
    RunSafety(crc, role, es);
    InitInv(crc, role);
    RunKeepsInv(crc, Init(role), es);
    forall k
      ensures !Dangling(Run(crc, Init(role), es), k)
    {
      NoneDangling(crc, role, es, k);
    }
  }

  /** A viewer never frees a session that it has listed, so that only a failing drain of an offer is in the way. */
  lemma ViewerFreesNone(crc: PeerId -> Key, es: seq<Event>, n: nat, k: Key)
    requires IsRun(crc, Init(Viewer), es)
    ensures !FiledFreedBefore(crc, Viewer, es, n, k)
  {
    forall p: nat, h
      ensures !FreesAt(crc, Viewer, es, p, h)
    {
      if p < |es| {
        RunAt(crc, Viewer, es, p);
      }
    }
  }

  /** The registry of a master, from its start. */
  lemma MasterRegistry(crc: PeerId -> Key, es: seq<Event>)
    requires IsRun(crc, Init(Master), es)
    ensures var s := Run(crc, Init(Master), es);
      && Inv(crc, s)
      && (Bijection(crc, s) <==> NothingBreaks(crc, Init(Master), es))
  {
    InitInv(crc, Master);
    RunKeepsInv(crc, Init(Master), es);
    RegistryIffNothingBreaks(crc, Init(Master), es);
  }

  /** Any offer of a master whose drain fails breaks the registry, and the key's next candidate reaches freed memory. */
  lemma FailedDrainBreaks(crc: PeerId -> Key, s: State, e: Event)
    requires s.role == Master && Inv(crc, s) && OfferDrainFails(crc, s, e)
    ensures var s' := Step(crc, s, e);
      && !Bijection(crc, s')
      && (forall c: Event :: c.Candidate? && crc(c.peer) == crc(e.peer) && Enabled(s', c) ==>
          !SafeSubmissions(Step(crc, s', c).log))
  {
    var s', k := Step(crc, s, e), crc(e.peer);
    StepKeepsInv(crc, s, e);
    StepDangling(crc, s, e, k);
    BijectionIffNoneBroken(crc, s');
    assert Broken(crc, s', k);
    DanglingForever(crc, s', [], k);
  }

  lemma FirstCandidate(crc: PeerId -> Key, peer: PeerId)
    ensures var s := Step(crc, Init(Master), Candidate(peer, 0, true));
      && MessagesFor(s.pending, crc(peer)) == [Message(CandidateMessage, 0)]
      && s.table == map[] && s.list == []
  {
  }

  /** A concrete case: a candidate that arrives before its offer and is rejected when the offer comes. */
  lemma FailedDrainExample(crc: PeerId -> Key, peer: PeerId) returns (s: State)
    ensures s == Step(crc, Init(Master), Candidate(peer, 0, true))
    ensures Bijection(crc, s)
    ensures !Bijection(crc, Step(crc, s, Offer(peer, Handled, {0})))
  {
    s := Step(crc, Init(Master), Candidate(peer, 0, true));
    InitInv(crc, Master);
    StepKeepsInv(crc, Init(Master), Candidate(peer, 0, true));
    FirstCandidate(crc, peer);
    assert Message(CandidateMessage, 0) in MessagesFor(s.pending, crc(peer));
    FailedDrainBreaks(crc, s, Offer(peer, Handled, {0}));
  }

  /** A master with one listed session, under its own key and under that of an answer. */
  lemma AnsweredState(crc: PeerId -> Key, a: PeerId, b: PeerId) returns (s: State)
    requires crc(a) != crc(b)
    ensures var s1 := Step(crc, Init(Master), Offer(a, Handled, {}));
      s1.list == [0] && s == Step(crc, s1, Answer(b, true, {}))
    ensures s.role == Master && s.list == [0] && s.sessions == [Session(a, false)]
    ensures s.table == map[crc(a) := 0, crc(b) := 0]
  {
    var s1 := Step(crc, Init(Master), Offer(a, Handled, {}));
    assert s1.list == [0] && s1.table == map[crc(a) := 0] && s1.sessions == [Session(a, false)];
    s := Step(crc, s1, Answer(b, true, {}));
  }

  lemma RunCons(crc: PeerId -> Key, s: State, e: Event, es: seq<Event>)
    requires Enabled(s, e) && IsRun(crc, Step(crc, s, e), es)
    ensures IsRun(crc, s, [e] + es) && Run(crc, s, [e] + es) == Run(crc, Step(crc, s, e), es)
    ensures DrainsSucceed(crc, s, [e] + es) <==> !DrainFails(crc, s, e) && DrainsSucceed(crc, Step(crc, s, e), es)
  {
    assert ([e] + es)[1..] == es;
  }

  lemma {:induction false} IsRunAppend(crc: PeerId -> Key, s: State, a: seq<Event>, b: seq<Event>)
    requires IsRun(crc, s, a) && IsRun(crc, Run(crc, s, a), b)
    ensures IsRun(crc, s, a + b)
    decreases a
  {
    if a == [] {
      assert a + b == b;
    } else {
      assert (a + b)[1..] == a[1..] + b;
      IsRunAppend(crc, Step(crc, s, a[0]), a[1..], b);
    }
  }

  lemma {:induction false} RunAppend(crc: PeerId -> Key, s: State, a: seq<Event>, b: seq<Event>)
    requires IsRun(crc, s, a) && IsRun(crc, Run(crc, s, a), b) && IsRun(crc, s, a + b)
    ensures Run(crc, s, a + b) == Run(crc, Run(crc, s, a), b)
    decreases a
  {
    if a == [] {
      assert a + b == b;
    } else {
      assert (a + b)[1..] == a[1..] + b;
      RunAppend(crc, Step(crc, s, a[0]), a[1..], b);
    }
  }

  lemma {:induction false} DrainsAppend(crc: PeerId -> Key, s: State, a: seq<Event>, b: seq<Event>)
    requires IsRun(crc, s, a) && IsRun(crc, Run(crc, s, a), b) && IsRun(crc, s, a + b)
    requires DrainsSucceed(crc, s, a) && DrainsSucceed(crc, Run(crc, s, a), b)
    ensures DrainsSucceed(crc, s, a + b)
    decreases a
  {
    if a == [] {
      assert a + b == b;
    } else {
      assert (a + b)[1..] == a[1..] + b;
      DrainsAppend(crc, Step(crc, s, a[0]), a[1..], b);
    }
  }

  lemma AppendRuns(crc: PeerId -> Key, s: State, a: seq<Event>, b: seq<Event>)
    requires IsRun(crc, s, a) && IsRun(crc, Run(crc, s, a), b)
    requires DrainsSucceed(crc, s, a) && DrainsSucceed(crc, Run(crc, s, a), b)
    ensures IsRun(crc, s, a + b) && DrainsSucceed(crc, s, a + b)
    ensures Run(crc, s, a + b) == Run(crc, Run(crc, s, a), b)
  {
    IsRunAppend(crc, s, a, b);
    RunAppend(crc, s, a, b);
    DrainsAppend(crc, s, a, b);
  }

  lemma RunOfOne(crc: PeerId -> Key, s: State, e: Event)
    requires Enabled(s, e) && !DrainFails(crc, s, e)
    ensures IsRun(crc, s, [e]) && DrainsSucceed(crc, s, [e]) && Run(crc, s, [e]) == Step(crc, s, e)
  {
    RunCons(crc, s, e, []);
    assert [e] + [] == [e];
  }

  lemma RunOfTwo(crc: PeerId -> Key, s: State, e1: Event, e2: Event)
    requires Enabled(s, e1) && Enabled(Step(crc, s, e1), e2)
    requires !DrainFails(crc, s, e1) && !DrainFails(crc, Step(crc, s, e1), e2)
    ensures IsRun(crc, s, [e1, e2]) && DrainsSucceed(crc, s, [e1, e2])
    ensures Run(crc, s, [e1, e2]) == Step(crc, Step(crc, s, e1), e2)
  {
    RunOfOne(crc, Step(crc, s, e1), e2);
    RunCons(crc, s, e1, [e2]);
    assert [e1] + [e2] == [e1, e2];
  }

  /** A session freed by a pass that an answer has filed under a second key, which stays in the table. */
  lemma FreedAnswered(crc: PeerId -> Key, a: PeerId, b: PeerId) returns (s: State)
    requires crc(a) != crc(b)
    ensures var es := [Offer(a, Handled, {}), Answer(b, true, {})] + [Terminate(0), Scan];
      IsRun(crc, Init(Master), es) && DrainsSucceed(crc, Init(Master), es) && s == Run(crc, Init(Master), es)
    ensures Inv(crc, s) && Dangling(s, crc(b)) && s.clock == 0
  {
    var s2 := AnsweredState(crc, a, b);
    var s3 := Step(crc, s2, Terminate(0));
    s := Step(crc, s3, Scan);
    RunOfTwo(crc, Init(Master), Offer(a, Handled, {}), Answer(b, true, {}));
    RunOfTwo(crc, s2, Terminate(0), Scan);
    AppendRuns(crc, Init(Master), [Offer(a, Handled, {}), Answer(b, true, {})], [Terminate(0), Scan]);
    InitInv(crc, Master);
    RunKeepsInv(crc, Init(Master), [Offer(a, Handled, {}), Answer(b, true, {})]);
    StepKeepsInv(crc, s2, Terminate(0));
    StepKeepsInv(crc, s3, Scan);
    assert 0 in Terminated(s3);
    assert SessionScan.RemovedFrom(s3.list, 0, Terminated(s3)) == [0] + SessionScan.RemovedFrom([], 1, Terminated(s3));
    StepDangling(crc, s3, Scan, crc(b));
  }

  /**
   A concrete case: an answer from another peer reaches a master with one session. When that session
   has been freed, the next candidate of that peer is submitted to freed memory, although no drain failed.
   */
  lemma FiledAnswerExample(crc: PeerId -> Key, a: PeerId, b: PeerId) returns (es: seq<Event>)
    requires crc(a) != crc(b)
    ensures es == [Offer(a, Handled, {}), Answer(b, true, {}), Terminate(0), Scan, Candidate(b, 0, true)]
    ensures IsRun(crc, Init(Master), es) && DrainsSucceed(crc, Init(Master), es)
    ensures !SafeSubmissions(Run(crc, Init(Master), es).log)
  {
    var s := FreedAnswered(crc, a, b);
    var before := [Offer(a, Handled, {}), Answer(b, true, {})] + [Terminate(0), Scan];
    es := UnsafeCandidate(crc, before, s, Candidate(b, 0, true));
  }

  /** A run goes on with a candidate for a key that dangles. */
  lemma UnsafeCandidate(crc: PeerId -> Key, before: seq<Event>, s: State, e: Event) returns (es: seq<Event>)
    requires IsRun(crc, Init(Master), before) && DrainsSucceed(crc, Init(Master), before)
    requires s == Run(crc, Init(Master), before) && Inv(crc, s)
    requires e.Candidate? && Enabled(s, e) && Dangling(s, crc(e.peer))
    ensures es == before + [e]
    ensures IsRun(crc, Init(Master), es) && DrainsSucceed(crc, Init(Master), es)
    ensures !SafeSubmissions(Run(crc, Init(Master), es).log)
  {
    es := before + [e];
    RunOfOne(crc, s, e);
    AppendRuns(crc, Init(Master), before, [e]);
    DanglingForever(crc, s, [], crc(e.peer));
  }

  // ----- terminated sessions are cleared

  /** Number of listed sessions that have terminated. */
  function DeadCount(s: State): nat {
    SessionScan.CountDead(s.list, Terminated(s))
  }

  function ScanCount(es: seq<Event>): nat {
    if es == [] then 0 else (if es[0].Scan? then 1 else 0) + ScanCount(es[1..])
  }

  /** Passes that clear `t` terminated sessions. */
  function PassesFor(t: nat): nat {
    if t == 0 then 0 else SessionScan.Log2(t) + 1
  }

  lemma PassesForHalf(t: nat, t': nat)
    requires 2 * t' <= t && t > 0
    ensures PassesFor(t') + 1 <= PassesFor(t)
  {
    if t' > 0 {
      SessionScan.Log2Monotone(t', t / 2);
    }
  }

  lemma {:induction false} CountDeadAgrees(list: seq<Handle>, a: set<Handle>, b: set<Handle>)
    requires forall h :: h in list ==> (h in a <==> h in b)
    ensures SessionScan.CountDead(list, a) == SessionScan.CountDead(list, b)
  {
    if list != [] {
      assert list[|list| - 1] in list;
      CountDeadAgrees(list[..|list| - 1], a, b);
    }
  }

  lemma ScanDeadCount(crc: PeerId -> Key, s: State)
    requires ListOk(s)
    ensures 2 * DeadCount(ScanStep(crc, s)) <= DeadCount(s)
  {
    var s' := ScanStep(crc, s);
    ScanListed(s);
    SessionScan.ScanHalves(s.list, Terminated(s));
    CountDeadAgrees(s'.list, Terminated(s), Terminated(s'));
  }

  lemma ListingDeadCount(s: State, s': State)
    requires ListOk(s) && Terminated(s') == Terminated(s)
    requires s'.list == s.list || s'.list == s.list + [|s.sessions|]
    ensures DeadCount(s') == DeadCount(s)
  {
    var h := |s.sessions|;
    SessionScan.CountDeadConcat(s.list, [h], Terminated(s));
    SessionScan.CountDeadBounds([h], Terminated(s));
  }

  /** A pass halves the terminated sessions of the list; no event but a termination adds one. */
  lemma StepDeadCount(crc: PeerId -> Key, s: State, e: Event)
    requires ListOk(s) && Enabled(s, e) && !e.Terminate?
    ensures var t, t' := DeadCount(s), DeadCount(Step(crc, s, e)); if e.Scan? then 2 * t' <= t else t' == t
  {
    if e.Scan? {
      ScanDeadCount(crc, s);
    } else {
      assert Terminated(Step(crc, s, e)) == Terminated(s);
      ListingDeadCount(s, Step(crc, s, e));
    }
  }

  lemma {:induction false} PassesClear(crc: PeerId -> Key, s: State, es: seq<Event>)
    requires Inv(crc, s) && IsRun(crc, s, es)
    requires forall e :: e in es ==> !e.Terminate?
    requires PassesFor(DeadCount(s)) <= ScanCount(es)
    ensures DeadCount(Run(crc, s, es)) == 0
    decreases es
  {
    if es != [] {
      var s1 := Step(crc, s, es[0]);
      StepKeepsInv(crc, s, es[0]);
      StepDeadCount(crc, s, es[0]);
      if es[0].Scan? && DeadCount(s) > 0 {
        PassesForHalf(DeadCount(s), DeadCount(s1));
      }
      PassesClear(crc, s1, es[1..]);
    }
  }

  /**
   With t >= 1 terminated sessions and no further terminations, every run that contains
   floor(log2 t) + 1 passes, among whatever offers and candidates, ends without a terminated session.
   */
  lemma PassesClearTerminated(crc: PeerId -> Key, s: State, es: seq<Event>)
    requires Inv(crc, s) && IsRun(crc, s, es)
    requires forall e :: e in es ==> !e.Terminate?
    requires DeadCount(s) >= 1 && SessionScan.Log2(DeadCount(s)) + 1 <= ScanCount(es)
    ensures Terminated(Run(crc, s, es)) == {}
  {
    var s' := Run(crc, s, es);
    PassesClear(crc, s, es);
    SessionScan.CountDeadBounds(s'.list, Terminated(s'));
  }
}
