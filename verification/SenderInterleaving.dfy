/**
 The session list as the threads see it, statement by statement: the cleanup pass, the offer handler
 and the stats timer hold sampleConfigurationObjLock; any number of media senders hold only
 streamingSessionListReadLock; connection callbacks set terminate flags under no lock at all.
 */
module SenderInterleaving {
  import opened Samples
  import SessionScan

  type Thread = nat

  /** Where the holder of sampleConfigurationObjLock is. `Unlocked` means that nobody holds it. */
  datatype Control =
    | Unlocked
    | ScanAt(i: nat)                  // about to test i < streamingSessionCount
    | ScanTook(i: nat, h: Handle)     // saw the terminate flag, wants the list lock
    | ScanLocked(i: nat, h: Handle)   // has the list lock
    | ScanCounted(i: nat, h: Handle)  // has decremented the count
    | ScanMoved(i: nat, h: Handle)    // has overwritten slot i
    | ScanReleased(i: nat, h: Handle) // has released the list lock, is about to free
    | OfferOpened(h: Handle)          // handles the offer, registers, drains
    | OfferFailed(h: Handle)          // is about to free the new session
    | OfferReady(h: Handle)           // wants the list lock
    | OfferLocked(h: Handle)          // has the list lock
    | OfferStored(h: Handle)          // has written the slot past the end
    | OfferCounted(h: Handle)         // has incremented the count
    | StatsAt(i: nat)                 // about to test i < streamingSessionCount
    | StatsUsing(i: nat)              // reads metrics of slot i

  /** Where a sender is. `seen` is the list when it took the lock, `served` the sessions it has written to. */
  datatype Sender =
    | Out
    | Testing(i: nat, seen: seq<Handle>, served: seq<Handle>)
    | Using(i: nat, seen: seq<Handle>, served: seq<Handle>)

  datatype Owner = Nobody | Controller | Sending(t: Thread)

  /** `slots` keeps stale entries past `count`, as the array does. */
  datatype State = State(
    slots: seq<Handle>,
    count: nat,
    issued: set<Handle>,
    live: set<Handle>,
    flagged: set<Handle>,
    control: Control,
    listOwner: Owner,
    senders: map<Thread, Sender>)

  datatype Action =
    | StartScan
    | StartOffer(h: Handle)
    | StartStats
    | Advance(ok: bool)       // the holder of the object lock executes its next statement
    | Flag(h: Handle)         // a connection fails, closes or disconnects
    | EnterSender(t: Thread)
    | AdvanceSender(t: Thread)

  function Init(): State {
    State(seq(MAX_SESSIONS, _ => 0), 0, {}, {}, {}, Unlocked, Nobody, map[])
  }

  function SenderAt(s: State, t: Thread): Sender {
    if t in s.senders then s.senders[t] else Out
  }

  function Listed(s: State): seq<Handle> {
    if s.count <= |s.slots| then s.slots[..s.count] else s.slots
  }

  /** The list lock is free when it is wanted; everything else can always go on. */
  predicate CanAdvance(s: State) {
    match s.control
    case Unlocked => false
    case ScanTook(_, _) => s.listOwner == Nobody
    case OfferReady(_) => s.listOwner == Nobody
    case _ => true
  }

  predicate Enabled(s: State, a: Action) {
    match a
    case StartScan => s.control == Unlocked
    case StartOffer(h) => s.control == Unlocked && h !in s.issued && s.count < MAX_SESSIONS
    case StartStats => s.control == Unlocked
    case Advance(_) => CanAdvance(s)
    case Flag(h) => h in s.live
    case EnterSender(t) => SenderAt(s, t) == Out && s.listOwner == Nobody
    case AdvanceSender(t) => SenderAt(s, t) != Out
  }

  function AdvanceControl(s: State, ok: bool): State {
    match s.control
    case Unlocked => s
    case ScanAt(i) =>
      if i >= s.count || i >= |s.slots| then s.(control := Unlocked)
      else if s.slots[i] in s.flagged then s.(control := ScanTook(i, s.slots[i]))
      else s.(control := ScanAt(i + 1))
    case ScanTook(i, h) => s.(control := ScanLocked(i, h), listOwner := Controller)
    case ScanLocked(i, h) => s.(control := ScanCounted(i, h), count := if s.count > 0 then s.count - 1 else 0)
    case ScanCounted(i, h) =>
      s.(control := ScanMoved(i, h),
         slots := if i < |s.slots| && s.count < |s.slots| then s.slots[i := s.slots[s.count]] else s.slots)
    case ScanMoved(i, h) => s.(control := ScanReleased(i, h), listOwner := Nobody)
    case ScanReleased(i, h) => s.(control := ScanAt(i + 1), live := s.live - {h})
    case OfferOpened(h) => s.(control := if ok then OfferReady(h) else OfferFailed(h))
    case OfferFailed(h) => s.(control := Unlocked, live := s.live - {h})
    case OfferReady(h) => s.(control := OfferLocked(h), listOwner := Controller)
    case OfferLocked(h) =>
      s.(control := OfferStored(h), slots := if s.count < |s.slots| then s.slots[s.count := h] else s.slots)
    case OfferStored(h) => s.(control := OfferCounted(h), count := s.count + 1)
    case OfferCounted(h) => s.(control := Unlocked, listOwner := Nobody)
    case StatsAt(i) => s.(control := if i < s.count then StatsUsing(i) else Unlocked)
    case StatsUsing(i) => s.(control := StatsAt(i + 1))
  }

  function AdvanceSending(s: State, t: Thread): State {
    match SenderAt(s, t)
    case Out => s
    case Testing(i, seen, served) =>
      if i < s.count then s.(senders := s.senders[t := Using(i, seen, served)])
      else s.(senders := s.senders[t := Out], listOwner := Nobody)
    case Using(i, seen, served) =>
      var h := if i < |s.slots| then s.slots[i] else 0;
      s.(senders := s.senders[t := Testing(i + 1, seen, served + [h])])
  }

  function Step(s: State, a: Action): State
    requires Enabled(s, a)
  {
    match a
    case StartScan => s.(control := ScanAt(0))
    case StartOffer(h) => s.(control := OfferOpened(h), issued := s.issued + {h}, live := s.live + {h})
    case StartStats => s.(control := StatsAt(0))
    case Advance(ok) => AdvanceControl(s, ok)
    case Flag(h) => s.(flagged := s.flagged + {h})
    case EnterSender(t) => s.(senders := s.senders[t := Testing(0, Listed(s), [])], listOwner := Sending(t))
    case AdvanceSender(t) => AdvanceSending(s, t)
  }

  // ----- the invariant

  /** The first `n` slots hold distinct sessions that have not been freed. */
  ghost predicate Good(s: State, n: nat) {
    && n <= |s.slots| == MAX_SESSIONS
    && Distinct(s.slots[..n])
    && forall i :: 0 <= i < n ==> s.slots[i] in s.live
  }

  /** The session `h` is allocated, and not in the list. */
  ghost predicate Apart(s: State, h: Handle) {
    h in s.live && forall i :: 0 <= i < s.count && i < |s.slots| ==> s.slots[i] != h
  }

  predicate HoldsListLock(c: Control) {
    c.ScanLocked? || c.ScanCounted? || c.ScanMoved? || c.OfferLocked? || c.OfferStored? || c.OfferCounted?
  }

  /** A cleanup pass is under way. */
  predicate InPass(c: Control) {
    c.ScanAt? || c.ScanTook? || c.ScanLocked? || c.ScanCounted? || c.ScanMoved? || c.ScanReleased?
  }

  ghost predicate ControlOk(s: State)
    requires s.count <= |s.slots| == MAX_SESSIONS
  {
    match s.control
    case ScanTook(i, h) => i < s.count && s.slots[i] == h
    case ScanLocked(i, h) => i < s.count && s.slots[i] == h
    case ScanCounted(i, h) => i <= s.count < MAX_SESSIONS && s.slots[i] == h
    case ScanMoved(i, h) => Apart(s, h)
    case ScanReleased(i, h) => Apart(s, h)
    case OfferOpened(h) => s.count < MAX_SESSIONS && Apart(s, h)
    case OfferFailed(h) => s.count < MAX_SESSIONS && Apart(s, h)
    case OfferReady(h) => s.count < MAX_SESSIONS && Apart(s, h)
    case OfferLocked(h) => s.count < MAX_SESSIONS && Apart(s, h)
    case OfferStored(h) => s.count < MAX_SESSIONS && Apart(s, h) && s.slots[s.count] == h
    case StatsUsing(i) => i < s.count
    case _ => true
  }

  ghost predicate SenderOk(s: State, t: Thread) {
    match SenderAt(s, t)
    case Out => s.listOwner != Sending(t)
    case Testing(i, seen, served) =>
      s.listOwner == Sending(t) && seen == Listed(s) && i <= |seen| && served == seen[..i]
    case Using(i, seen, served) =>
      s.listOwner == Sending(t) && seen == Listed(s) && i < |seen| && served == seen[..i]
  }

  ghost predicate ListInv(s: State) {
    && Good(s, if s.control.ScanCounted? then s.count + 1 else s.count)
    && s.live <= s.issued
    && (s.listOwner == Controller <==> HoldsListLock(s.control))
    && ControlOk(s)
  }

  ghost predicate Inv(s: State) {
    ListInv(s) && forall t :: SenderOk(s, t)
  }

  lemma InitInv()
    ensures Inv(Init())
  {
  }

  lemma RemoveSlot(slots: seq<Handle>, i: nat, n: nat)
    requires i <= n < |slots|
    requires Distinct(slots[..n + 1])
    ensures var moved := slots[i := slots[n]];
      Distinct(moved[..n]) && forall j :: 0 <= j < n ==> moved[j] != slots[i]
  {
  }

  lemma PassKeepsList(s: State, ok: bool)
    requires ListInv(s) && CanAdvance(s) && InPass(s.control)
    ensures ListInv(AdvanceControl(s, ok))
  {
    match s.control
    case ScanCounted(i, h) => RemoveSlot(s.slots, i, s.count);
    case _ =>
  }

  lemma OfferKeepsList(s: State, ok: bool)
    requires ListInv(s) && CanAdvance(s) && !InPass(s.control)
    ensures ListInv(AdvanceControl(s, ok))
  {
    match s.control
    case OfferStored(h) => assert s.slots[..s.count + 1] == s.slots[..s.count] + [h];
    case _ =>
  }

  lemma AdvanceKeepsList(s: State, ok: bool)
    requires ListInv(s) && CanAdvance(s)
    ensures ListInv(AdvanceControl(s, ok))
  {
    if InPass(s.control) {
      PassKeepsList(s, ok);
    } else {
      OfferKeepsList(s, ok);
    }
  }

  /** The list changes only while the controller holds the list lock, so no sender is inside. */
  lemma AdvanceKeepsSenders(s: State, ok: bool, t: Thread)
    requires Inv(s) && CanAdvance(s)
    ensures SenderOk(AdvanceControl(s, ok), t)
  {
    assert SenderOk(s, t);
    var s' := AdvanceControl(s, ok);
    assert HoldsListLock(s.control) || (s'.slots == s.slots && s'.count == s.count);
  }

  lemma EnterKeepsSenders(s: State, t: Thread, u: Thread)
    requires Inv(s) && Enabled(s, EnterSender(t))
    ensures SenderOk(Step(s, EnterSender(t)), u)
  {
    assert SenderOk(s, u);
  }

  lemma SendingKeepsSenders(s: State, t: Thread, u: Thread)
    requires Inv(s) && Enabled(s, AdvanceSender(t))
    ensures SenderOk(Step(s, AdvanceSender(t)), u)
  {
    assert SenderOk(s, t) && SenderOk(s, u);
  }

  lemma StepKeepsSenders(s: State, a: Action, u: Thread)
    requires Inv(s) && Enabled(s, a)
    ensures SenderOk(Step(s, a), u)
  {
    match a
    case Advance(ok) => AdvanceKeepsSenders(s, ok, u);
    case EnterSender(t) => EnterKeepsSenders(s, t, u);
    case AdvanceSender(t) => SendingKeepsSenders(s, t, u);
    case _ => assert SenderOk(s, u);
  }

  lemma StepKeepsList(s: State, a: Action)
    requires ListInv(s) && Enabled(s, a)
    requires a.AdvanceSender? ==> SenderOk(s, a.t)
    ensures ListInv(Step(s, a))
  {
    match a
    case Advance(ok) => AdvanceKeepsList(s, ok);
    case StartOffer(h) => assert forall i :: 0 <= i < s.count ==> s.slots[i] in s.issued;
    case _ =>
  }

  lemma StepKeepsInv(s: State, a: Action)
    requires Inv(s) && Enabled(s, a)
    ensures Inv(Step(s, a))
  {
    StepKeepsList(s, a);
    forall u
      ensures SenderOk(Step(s, a), u)
    {
      StepKeepsSenders(s, a, u);
    }
  }

  // ----- results

  predicate IsRun(s: State, run: seq<Action>)
    decreases run
  {
    run == [] || (Enabled(s, run[0]) && IsRun(Step(s, run[0]), run[1..]))
  }

  function Run(s: State, run: seq<Action>): State
    requires IsRun(s, run)
    decreases run
  {
    if run == [] then s else Run(Step(s, run[0]), run[1..])
  }

  /** Every session that some thread reads at this point has not been freed. */
  ghost predicate NoUseAfterFree(s: State) {
    && (forall t :: SenderAt(s, t).Using? ==>
      SenderAt(s, t).i < s.count <= |s.slots| && s.slots[SenderAt(s, t).i] in s.live)
    && (s.control.StatsUsing? ==> s.control.i < s.count <= |s.slots| && s.slots[s.control.i] in s.live)
    && (s.control.ScanAt? && s.control.i < s.count ==> s.count <= |s.slots| && s.slots[s.control.i] in s.live)
  }

  /** A sender inside the lock finds the list as it was when it took the lock, and is alone. */
  ghost predicate SendersUndisturbed(s: State) {
    && (forall t :: SenderAt(s, t) != Out ==>
      && SenderAt(s, t).seen == Listed(s)
      && SenderAt(s, t).served <= Listed(s) && |SenderAt(s, t).served| == SenderAt(s, t).i)
    && (forall t, u :: SenderAt(s, t) != Out && SenderAt(s, u) != Out ==> t == u)
  }

  lemma InvIsSafe(s: State)
    requires Inv(s)
    ensures NoUseAfterFree(s) && SendersUndisturbed(s)
  {
    forall t
      ensures SenderAt(s, t).Using? ==>
        SenderAt(s, t).i < s.count <= |s.slots| && s.slots[SenderAt(s, t).i] in s.live
      ensures SenderAt(s, t) != Out ==>
        && SenderAt(s, t).seen == Listed(s)
        && SenderAt(s, t).served <= Listed(s) && |SenderAt(s, t).served| == SenderAt(s, t).i
      ensures SenderAt(s, t) != Out ==> s.listOwner == Sending(t)
    {
      assert SenderOk(s, t);
    }
  }

  lemma {:induction false} RunKeepsInv(s: State, run: seq<Action>)
    requires Inv(s) && IsRun(s, run)
    ensures Inv(Run(s, run))
    decreases run
  {
    if run != [] {
      StepKeepsInv(s, run[0]);
      RunKeepsInv(Step(s, run[0]), run[1..]);
    }
  }

  /** In every interleaving, no freed session is listed or read, and senders see a list that stands still. */
  lemma SafeInEveryInterleaving(run: seq<Action>)
    requires IsRun(Init(), run)
    ensures var s := Run(Init(), run);
      && Inv(s) && NoUseAfterFree(s) && SendersUndisturbed(s)
      && (forall h :: h in Listed(s) ==> h in s.live)
  {
    InitInv();
    RunKeepsInv(Init(), run);
    InvIsSafe(Run(Init(), run));
  }

  /** The sessions that the holder of the object lock has in hand and that are not in the list. */
  function InHand(s: State): set<Handle> {
    match s.control
    case ScanCounted(i, h) => if s.count < |s.slots| then {h, s.slots[s.count]} else {h}
    case ScanMoved(_, h) => {h}
    case ScanReleased(_, h) => {h}
    case OfferOpened(h) => {h}
    case OfferFailed(h) => {h}
    case OfferReady(h) => {h}
    case OfferLocked(h) => {h}
    case OfferStored(h) => {h}
    case _ => {}
  }

  /** No session leaks. */
  ghost predicate NoneLeaks(s: State) {
    forall h :: h in s.live ==> h in Listed(s) || h in InHand(s)
  }

  lemma PassLeaksNone(s: State, ok: bool)
    requires ListInv(s) && CanAdvance(s) && InPass(s.control) && NoneLeaks(s)
    ensures NoneLeaks(AdvanceControl(s, ok))
  {
    match s.control
    case ScanLocked(i, h) => CutLast(s.slots, s.count);
    case ScanCounted(i, h) => MoveLeaksNone(s, ok);
    case _ =>
  }

  lemma MoveLeaksNone(s: State, ok: bool)
    requires ListInv(s) && s.control.ScanCounted? && NoneLeaks(s)
    ensures NoneLeaks(AdvanceControl(s, ok))
  {
    var s', freed := AdvanceControl(s, ok), s.control.h;
    MovedSlot(s.slots, s.control.i, s.count);
    assert Listed(s) == s.slots[..s.count];
    forall h | h in s'.live
      ensures h in Listed(s') || h in InHand(s')
    {
      assert h in s.slots[..s.count] || h == s.slots[s.count] || h == freed;
    }
  }

  lemma CutLast(slots: seq<Handle>, n: nat)
    requires 0 < n <= |slots|
    ensures slots[..n] == slots[..n - 1] + [slots[n - 1]]
  {
  }

  lemma MovedSlot(slots: seq<Handle>, i: nat, n: nat)
    requires i <= n < |slots|
    ensures forall h :: h in slots[..n] || h == slots[n] ==> h in slots[i := slots[n]][..n] || h == slots[i]
  {
    var moved := slots[i := slots[n]];
    assert forall j :: 0 <= j < n && j != i ==> moved[..n][j] == slots[j];
    assert i < n ==> moved[..n][i] == slots[n];
  }

  lemma OfferLeaksNone(s: State, ok: bool)
    requires ListInv(s) && CanAdvance(s) && !InPass(s.control) && NoneLeaks(s)
    ensures NoneLeaks(AdvanceControl(s, ok))
  {
    match s.control
    case OfferLocked(h) => assert Listed(AdvanceControl(s, ok)) == Listed(s);
    case OfferStored(h) => assert s.slots[..s.count + 1] == Listed(s) + [h];
    case _ =>
  }

  lemma StepLeaksNone(s: State, a: Action)
    requires ListInv(s) && Enabled(s, a) && NoneLeaks(s)
    ensures NoneLeaks(Step(s, a))
  {
    match a
    case Advance(ok) =>
      if InPass(s.control) {
        PassLeaksNone(s, ok);
      } else {
        OfferLeaksNone(s, ok);
      }
    case _ =>
  }

  lemma {:induction false} RunLeaksNone(s: State, run: seq<Action>)
    requires Inv(s) && NoneLeaks(s) && IsRun(s, run)
    ensures NoneLeaks(Run(s, run))
    decreases run
  {
    if run != [] {
      StepKeepsInv(s, run[0]);
      StepLeaksNone(s, run[0]);
      RunLeaksNone(Step(s, run[0]), run[1..]);
    }
  }

  /**
   In every run, whenever the object lock is free, the sessions that are not freed are those listed; so
   that the first slot, which an answer reads without looking at the count, holds one iff there is one.
   */
  lemma FirstSlotIsLiveIff(run: seq<Action>)
    requires IsRun(Init(), run) && Run(Init(), run).control == Unlocked
    ensures var s := Run(Init(), run);
      && (forall h :: h in s.live <==> h in Listed(s))
      && |s.slots| > 0
      && (s.slots[0] in s.live <==> s.count > 0)
  {
    InitInv();
    RunKeepsInv(Init(), run);
    RunLeaksNone(Init(), run);
    InvIsSafe(Run(Init(), run));
  }

  /** A sender that leaves the lock has served each listed session exactly once, in the order of the list. */
  lemma SenderServesEveryone(s: State, t: Thread)
    requires Inv(s)
    requires SenderAt(s, t) != Out && SenderAt(Step(s, AdvanceSender(t)), t) == Out
    ensures SenderAt(s, t).served == Listed(s) && Distinct(Listed(s))
  {
    assert SenderOk(s, t);
  }

  /** The action that the holder of the list lock, or else the holder of the object lock, takes next. */
  function NextAction(s: State, ok: bool): Action {
    if s.listOwner.Sending? then AdvanceSender(s.listOwner.t) else Advance(ok)
  }

  /** No deadlock: as long as a lock is held, a holder can go on. */
  lemma SomeHolderCanMove(s: State, ok: bool)
    requires Inv(s)
    requires s.control != Unlocked || s.listOwner != Nobody
    ensures Enabled(s, NextAction(s, ok))
  {
    if s.listOwner.Sending? {
      assert SenderOk(s, s.listOwner.t);
    }
  }

  /** How many steps its holder needs to release the list lock. */
  function StepsToRelease(s: State): nat {
    match s.listOwner
    case Nobody => 0
    case Sending(t) =>
      (match SenderAt(s, t)
       case Out => 0
       case Testing(i, _, _) => if i < s.count then 2 * (s.count - i) + 1 else 1
       case Using(i, _, _) => if i < s.count then 2 * (s.count - i) else 0)
    case Controller =>
      (match s.control
       case ScanLocked(_, _) => 3
       case ScanCounted(_, _) => 2
       case OfferLocked(_) => 3
       case OfferStored(_) => 2
       case _ => 1)
  }

  /** The list lock is released after a bounded number of steps of its holder; nobody else delays it. */
  lemma ListLockIsReleased(s: State, a: Action)
    requires Inv(s) && Enabled(s, a) && s.listOwner != Nobody
    ensures var n, n' := StepsToRelease(s), StepsToRelease(Step(s, a));
      && 1 <= n <= 2 * MAX_SESSIONS + 1
      && (if s.listOwner.Sending?
          then n' == (if a == AdvanceSender(s.listOwner.t) then n - 1 else n)
          else n' == (if a.Advance? then n - 1 else n))
      && (n' == 0 <==> Step(s, a).listOwner == Nobody)
  {
    if s.listOwner.Sending? {
      assert SenderOk(s, s.listOwner.t);
    }
    if a.AdvanceSender? {
      assert SenderOk(s, a.t);
    }
    StepKeepsInv(s, a);
    var s' := Step(s, a);
    if s'.listOwner.Sending? {
      assert SenderOk(s', s'.listOwner.t);
    }
  }

  // ----- a pass, statement by statement, is the scan of the registry

  /** The list of the pass under way once the session that it has found terminated is out. */
  ghost function PassList(s: State): seq<Handle>
    requires ListInv(s) && InPass(s.control)
  {
    match s.control
    case ScanTook(i, h) => SessionScan.SwapRemove(Listed(s), i)
    case ScanLocked(i, h) => SessionScan.SwapRemove(Listed(s), i)
    case ScanCounted(i, h) => SessionScan.SwapRemove(s.slots[..s.count + 1], i)
    case _ => Listed(s)
  }

  /** The slot that the pass looks at next. */
  function PassSlot(c: Control): nat
    requires InPass(c)
  {
    if c.ScanAt? then c.i else c.i + 1
  }

  /** The list that the pass under way leaves behind, and the sessions it frees, if `dead` have terminated. */
  ghost function PassResult(s: State, dead: set<Handle>): seq<Handle>
    requires ListInv(s) && InPass(s.control)
  {
    SessionScan.ScanFrom(PassList(s), PassSlot(s.control), dead)
  }

  ghost function PassFrees(s: State, dead: set<Handle>): set<Handle>
    requires ListInv(s) && InPass(s.control)
  {
    (if s.control.ScanAt? then {} else {s.control.h})
    + set h | h in SessionScan.RemovedFrom(PassList(s), PassSlot(s.control), dead)
  }

  /** The pass goes on from `s'` as from `s`, or ends in it. */
  ghost predicate PassGoesOn(s: State, s': State, dead: set<Handle>)
    requires ListInv(s) && ListInv(s') && InPass(s.control)
  {
    if InPass(s'.control)
    then PassResult(s', dead) == PassResult(s, dead) && s'.live - PassFrees(s', dead) == s.live - PassFrees(s, dead)
    else s'.control == Unlocked && Listed(s') == PassResult(s, dead) && s'.live == s.live - PassFrees(s, dead)
  }

  /** The next step of the pass reads no terminate flag that `dead` and `s` disagree on. */
  predicate FlagAgrees(s: State, dead: set<Handle>) {
    s.control.ScanAt? && s.control.i < s.count <= |s.slots| ==>
      (s.slots[s.control.i] in dead <==> s.slots[s.control.i] in s.flagged)
  }

  lemma PassReads(s: State, ok: bool, dead: set<Handle>)
    requires ListInv(s) && s.control.ScanAt? && FlagAgrees(s, dead)
    requires ListInv(AdvanceControl(s, ok))
    ensures PassGoesOn(s, AdvanceControl(s, ok), dead)
  {
  }

  /** The steps of a removal do what the removal as a whole does to the list. */
  lemma RemovalList(s: State, ok: bool)
    requires ListInv(s) && InPass(s.control) && !s.control.ScanAt?
    requires ListInv(AdvanceControl(s, ok))
    ensures var s' := AdvanceControl(s, ok);
      InPass(s'.control) && PassSlot(s'.control) == PassSlot(s.control) && PassList(s') == PassList(s)
  {
    var s' := AdvanceControl(s, ok);
    match s.control
    case ScanLocked(i, h) => assert s'.slots[..s'.count + 1] == Listed(s);
    case ScanCounted(i, h) => assert Listed(s') == SessionScan.SwapRemove(s.slots[..s.count + 1], i);
    case _ =>
  }

  lemma PassRemoves(s: State, ok: bool, dead: set<Handle>)
    requires ListInv(s) && InPass(s.control) && !s.control.ScanAt?
    requires ListInv(AdvanceControl(s, ok))
    ensures PassGoesOn(s, AdvanceControl(s, ok), dead)
  {
    RemovalList(s, ok);
  }

  lemma PassUntouched(s: State, s': State, dead: set<Handle>)
    requires ListInv(s) && ListInv(s') && InPass(s.control)
    requires s'.control == s.control && s'.slots == s.slots && s'.count == s.count && s'.live == s.live
    ensures PassGoesOn(s, s', dead)
  {
  }

  lemma PassStep(s: State, a: Action, dead: set<Handle>)
    requires Inv(s) && Enabled(s, a) && InPass(s.control)
    requires a.Advance? ==> FlagAgrees(s, dead)
    ensures Inv(Step(s, a)) && PassGoesOn(s, Step(s, a), dead)
  {
    StepKeepsInv(s, a);
    if !a.Advance? {
      PassUntouched(s, Step(s, a), dead);
    } else if s.control.ScanAt? {
      PassReads(s, a.ok, dead);
    } else {
      PassRemoves(s, a.ok, dead);
    }
  }

  /**
   The pass is over in `s'`. It has left the list and freed the sessions as if `dead` had terminated
   before it: all that had, and none that has not by its end.
   */
  ghost predicate PassOver(s: State, s': State, dead: set<Handle>)
    requires ListInv(s) && InPass(s.control)
  {
    && s'.control == Unlocked
    && s.flagged <= dead <= s'.flagged
    && Listed(s') == PassResult(s, dead)
    && s'.live == s.live - PassFrees(s, dead)
  }

  lemma FirstOfPrefix(s: State, run: seq<Action>, n: nat)
    requires 1 <= n <= |run| && Enabled(s, run[0])
    requires IsRun(Step(s, run[0]), run[1..][..n - 1])
    ensures IsRun(s, run[..n]) && Run(s, run[..n]) == Run(Step(s, run[0]), run[1..][..n - 1])
  {
    assert run[..n][1..] == run[1..][..n - 1];
  }

  /** A session that was read before its flag was set may as well have terminated after the pass. */
  lemma ReadBeforeFlag(s: State, dead: set<Handle>) returns (dead': set<Handle>)
    requires ListInv(s) && s.control.ScanAt? && s.flagged <= dead
    requires ListInv(AdvanceControl(s, true))
    ensures s.flagged <= dead' <= dead && FlagAgrees(s, dead')
    ensures var s' := AdvanceControl(s, true); InPass(s'.control) ==>
      PassResult(s', dead') == PassResult(s', dead) && PassFrees(s', dead') == PassFrees(s', dead)
  {
    dead' := dead;
    var i := s.control.i;
    if i < s.count && s.slots[i] !in s.flagged {
      dead' := dead - {s.slots[i]};
      SessionScan.ScanFromAgrees(Listed(s), i + 1, dead, dead');
    }
  }

  /** What holds of the rest of the pass holds of the pass. */
  lemma PassOneMore(s: State, a: Action, s': State, dead: set<Handle>) returns (dead': set<Handle>)
    requires Inv(s) && Enabled(s, a) && InPass(s.control)
    requires Inv(Step(s, a)) && InPass(Step(s, a).control)
    requires PassOver(Step(s, a), s', dead)
    ensures PassOver(s, s', dead')
  {
    dead' := dead;
    if a.Advance? && s.control.ScanAt? {
      dead' := ReadBeforeFlag(s, dead);
    }
    PassStep(s, a, dead');
  }

  /**
   However senders and terminations are interleaved with it, a pass ends with the list, and has freed
   the sessions, of an atomic scan: every termination during the pass can be taken as one before it
   or one after it.
   */
  lemma {:induction false} PassIsScan(s: State, run: seq<Action>) returns (n: nat, dead: set<Handle>)
    requires Inv(s) && IsRun(s, run)
    requires InPass(s.control)
    requires Run(s, run).control == Unlocked
    ensures 0 < n <= |run| && IsRun(s, run[..n]) && PassOver(s, Run(s, run[..n]), dead)
    decreases run
  {
    var a, s1 := run[0], Step(s, run[0]);
    StepKeepsInv(s, a);
    if InPass(s1.control) {
      n, dead := PassIsScan(s1, run[1..]);
      dead := PassOneMore(s, a, Run(s1, run[1..][..n]), dead);
      n := n + 1;
    } else {
      n, dead := 1, s.flagged;
      PassStep(s, a, dead);
    }
    FirstOfPrefix(s, run, n);
  }

  lemma PassStarts(s: State)
    requires Inv(s) && s.control == Unlocked
    ensures var s' := Step(s, StartScan); Inv(s') && InPass(s'.control) && s'.flagged == s.flagged && s'.live == s.live
    ensures forall dead ::
      && PassResult(Step(s, StartScan), dead) == SessionScan.Scan(Listed(s), dead)
      && PassFrees(Step(s, StartScan), dead) == set h | h in SessionScan.Removed(Listed(s), dead)
  {
    StepKeepsInv(s, StartScan);
  }

  /** The whole pass, from taking the object lock to releasing it, in the terms of the registry. */
  lemma CleanupPassIsScan(s: State, run: seq<Action>) returns (n: nat, dead: set<Handle>)
    requires Inv(s) && s.control == Unlocked
    requires IsRun(Step(s, StartScan), run) && Run(Step(s, StartScan), run).control == Unlocked
    ensures 0 < n <= |run| && IsRun(Step(s, StartScan), run[..n])
    ensures var s' := Run(Step(s, StartScan), run[..n]);
      && s'.control == Unlocked
      && s.flagged <= dead <= s'.flagged
      && Listed(s') == SessionScan.Scan(Listed(s), dead)
      && s'.live == s.live - (set h | h in SessionScan.Removed(Listed(s), dead))
  {
    PassStarts(s);
    n, dead := PassIsScan(Step(s, StartScan), run);
  }

  /** A session is flagged iff it was, or its connection has failed in the run. */
  lemma {:induction false} FlagsAreSet(s: State, run: seq<Action>, h: Handle)
    requires IsRun(s, run)
    ensures h in Run(s, run).flagged <==> h in s.flagged || Flag(h) in run
    decreases run
  {
    if run != [] {
      assert run == [run[0]] + run[1..];
      FlagsAreSet(Step(s, run[0]), run[1..], h);
      assert h in Step(s, run[0]).flagged <==> h in s.flagged || run[0] == Flag(h);
    }
  }

  // ----- an offer, statement by statement, appends its session

  /** An offer with session `h` is under way. */
  predicate InOffer(c: Control, h: Handle) {
    || (c.OfferOpened? && c.h == h) || (c.OfferFailed? && c.h == h) || (c.OfferReady? && c.h == h)
    || (c.OfferLocked? && c.h == h) || (c.OfferStored? && c.h == h) || (c.OfferCounted? && c.h == h)
  }

  /** The list that the offer under way will leave behind, once it is known whether it was handled. */
  function OfferResult(s: State, h: Handle, handled: bool): seq<Handle> {
    if s.control.OfferCounted? then Listed(s) else Listed(s) + if handled then [h] else []
  }

  /** Whether the offer was handled, as far as that is known. */
  predicate OfferAgrees(c: Control, handled: bool) {
    (c.OfferFailed? ==> !handled) && (c.OfferReady? || c.OfferLocked? || c.OfferStored? || c.OfferCounted? ==> handled)
  }

  /** The offer goes on from `s'` as from `s`, or ends in it. */
  ghost predicate OfferGoesOn(s: State, s': State, h: Handle, handled: bool) {
    if s'.control == Unlocked
    then Listed(s') == OfferResult(s, h, handled) && s'.live == (if handled then s.live else s.live - {h})
    else InOffer(s'.control, h) && OfferResult(s', h, handled) == OfferResult(s, h, handled) && s'.live == s.live
  }

  lemma OfferStep(s: State, a: Action, h: Handle, handled: bool)
    requires ListInv(s) && Enabled(s, a) && InOffer(s.control, h) && OfferAgrees(s.control, handled)
    requires s.control.OfferOpened? && a.Advance? ==> handled == a.ok
    ensures OfferGoesOn(s, Step(s, a), h, handled)
    ensures OfferAgrees(Step(s, a).control, handled)
  {
    var s' := Step(s, a);
    match s.control
    case OfferLocked(_) => assert a.Advance? ==> Listed(s') == Listed(s);
    case OfferStored(_) => assert s.slots[..s.count + 1] == Listed(s) + [h];
    case _ =>
  }

  /** The outcome of the first statement that the holder of the object lock executes in the run. */
  function FirstOutcome(run: seq<Action>): bool {
    run != [] && if run[0].Advance? then run[0].ok else FirstOutcome(run[1..])
  }

  lemma {:induction false} OfferEnds(s: State, run: seq<Action>, h: Handle, handled: bool) returns (n: nat)
    requires Inv(s) && IsRun(s, run) && InOffer(s.control, h) && OfferAgrees(s.control, handled)
    requires s.control.OfferOpened? ==> handled == FirstOutcome(run)
    requires Run(s, run).control == Unlocked
    ensures 0 < n <= |run| && IsRun(s, run[..n])
    ensures var s' := Run(s, run[..n]);
      && s'.control == Unlocked && Listed(s') == OfferResult(s, h, handled)
      && s'.live == if handled then s.live else s.live - {h}
    decreases run
  {
    var s1 := Step(s, run[0]);
    StepKeepsInv(s, run[0]);
    OfferStep(s, run[0], h, handled);
    if s1.control == Unlocked {
      n := 1;
    } else {
      n := OfferEnds(s1, run[1..], h, handled);
      n := n + 1;
    }
    FirstOfPrefix(s, run, n);
  }

  /**
   However senders and terminations are interleaved with it, an offer appends its session to the list
   if it was handled, and frees it and leaves the list alone otherwise.
   */
  lemma OfferAppends(s: State, h: Handle, run: seq<Action>) returns (n: nat)
    requires Inv(s) && Enabled(s, StartOffer(h))
    requires IsRun(Step(s, StartOffer(h)), run) && Run(Step(s, StartOffer(h)), run).control == Unlocked
    ensures 0 < n <= |run| && IsRun(Step(s, StartOffer(h)), run[..n])
    ensures var s' := Run(Step(s, StartOffer(h)), run[..n]);
      && s'.control == Unlocked
      && Listed(s') == Listed(s) + (if FirstOutcome(run) then [h] else [])
      && s'.live == s.live + if FirstOutcome(run) then {h} else {}
  {
    StepKeepsInv(s, StartOffer(h));
    n := OfferEnds(Step(s, StartOffer(h)), run, h, FirstOutcome(run));
  }

  // ----- a stats callback reads every listed session

  /** The sessions that a stats callback reads in a run. */
  function StatsReads(s: State, run: seq<Action>): seq<Handle>
    requires IsRun(s, run)
    decreases run
  {
    if run == [] then []
    else StatsRead(s, run[0]) + StatsReads(Step(s, run[0]), run[1..])
  }

  predicate InStats(s: State) {
    (s.control.StatsAt? && s.control.i <= s.count) || s.control.StatsUsing?
  }

  lemma StatsStep(s: State, a: Action)
    requires Inv(s) && Enabled(s, a) && InStats(s)
    ensures var s' := Step(s, a);
      && Listed(s') == Listed(s)
      && (a.Advance? && s.control.StatsAt? && s.control.i == s.count ==> s'.control == Unlocked)
      && (a.Advance? && s.control.StatsAt? && s.control.i < s.count ==> s'.control == StatsUsing(s.control.i))
      && (a.Advance? && s.control.StatsUsing? ==> s'.control == StatsAt(s.control.i + 1) && s.control.i < s.count)
      && (!a.Advance? ==> s'.control == s.control)
  {
  }

  /** What is still to be read by the callback under way. */
  function StatsRest(s: State): seq<Handle>
    requires InStats(s)
  {
    if s.control.i <= |Listed(s)| then Listed(s)[s.control.i..] else []
  }

  /** Whatever happens meanwhile, a stats callback reads each listed session once, in order. */
  lemma {:induction false} StatsReadAll(s: State, run: seq<Action>) returns (n: nat)
    requires Inv(s) && IsRun(s, run) && InStats(s)
    requires Run(s, run).control == Unlocked
    ensures 0 < n <= |run| && IsRun(s, run[..n]) && Run(s, run[..n]).control == Unlocked
    ensures StatsReads(s, run[..n]) == StatsRest(s)
    decreases run
  {
    var s1 := Step(s, run[0]);
    StepKeepsInv(s, run[0]);
    StatsStep(s, run[0]);
    if s1.control == Unlocked {
      n := 0;
    } else {
      n := StatsReadAll(s1, run[1..]);
    }
    StatsFirst(s, run, n);
    n := n + 1;
    FirstOfPrefix(s, run, n);
  }

  lemma StatsFirst(s: State, run: seq<Action>, n: nat)
    requires Inv(s) && n < |run| && Enabled(s, run[0]) && InStats(s)
    requires IsRun(Step(s, run[0]), run[1..][..n])
    requires var s1 := Step(s, run[0]);
      var rest := StatsReads(s1, run[1..][..n]);
      if s1.control == Unlocked then rest == [] else InStats(s1) && rest == StatsRest(s1)
    ensures IsRun(s, run[..n + 1]) && StatsReads(s, run[..n + 1]) == StatsRest(s)
  {
    FirstOfPrefix(s, run, n + 1);
    assert run[..n + 1][1..] == run[1..][..n];
    StatsRestStep(s, run[0]);
  }

  /** The session that one step of a stats callback reads, if any. */
  function StatsRead(s: State, a: Action): seq<Handle> {
    if a.Advance? && s.control.StatsUsing? && s.control.i < |s.slots| then [s.slots[s.control.i]] else []
  }

  lemma StatsRestStep(s: State, a: Action)
    requires Inv(s) && Enabled(s, a) && InStats(s)
    ensures var s1 := Step(s, a);
      StatsRest(s) == StatsRead(s, a) + if s1.control == Unlocked then [] else if InStats(s1) then StatsRest(s1) else []
  {
    StatsStep(s, a);
  }

  /** The same from the start of the callback. */
  lemma StatsServeAll(s: State, run: seq<Action>) returns (n: nat)
    requires Inv(s) && Enabled(s, StartStats)
    requires IsRun(Step(s, StartStats), run) && Run(Step(s, StartStats), run).control == Unlocked
    ensures 0 < n <= |run| && IsRun(Step(s, StartStats), run[..n])
    ensures Run(Step(s, StartStats), run[..n]).control == Unlocked
    ensures StatsReads(Step(s, StartStats), run[..n]) == Listed(s)
  {
    StepKeepsInv(s, StartStats);
    n := StatsReadAll(Step(s, StartStats), run);
  }
}
