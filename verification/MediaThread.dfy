/**
 The media sender routine is started by the first offer that finds it not running (samples/Common.c,
 handleOffer) and clears the flag when it ends (mediaSenderRoutine). Offer handlers race on the flag.
 */
module MediaThread {

  /**
   `creators` are the handlers between ATOMIC_EXCHANGE_BOOL and THREAD_CREATE that found the flag
   clear; `routines` are the sender routines that have not yet cleared it.
   */
  datatype State = State(mediaThreadStarted: bool, creators: set<nat>, routines: set<nat>)

  datatype Action =
    | Exchange(handler: nat)
    | Create(handler: nat, routine: nat, ok: bool)
    | Clear(routine: nat)

  const INIT := State(false, {}, {})

  predicate Enabled(s: State, a: Action) {
    match a
    case Exchange(h) => h !in s.creators
    case Create(h, r, ok) => h in s.creators && r !in s.routines
    case Clear(r) => r in s.routines
  }

  /** The result of THREAD_CREATE is not looked at: if it fails, the flag stays set. */
  function Step(s: State, a: Action): State
    requires Enabled(s, a)
  {
    match a
    case Exchange(h) => State(true, if s.mediaThreadStarted then s.creators else s.creators + {h}, s.routines)
    case Create(h, r, ok) => State(s.mediaThreadStarted, s.creators - {h}, if ok then s.routines + {r} else s.routines)
    case Clear(r) => State(false, s.creators, s.routines - {r})
  }

  predicate IsRun(s: State, run: seq<Action>)
    decreases run
  {
    run == [] || (Enabled(s, run[0]) && IsRun(Step(s, run[0]), run[1..]))
  }

  function Run(s: State, run: seq<Action>): State
    requires IsRun(s, run)
    decreases run
  {
    if run == [] then s else Run(Step(s, run[0]), run[1..])
  }

  ghost predicate Inv(s: State) {
    && |s.creators| + |s.routines| <= 1
    && (s.creators + s.routines != {} ==> s.mediaThreadStarted)
  }

  lemma StepKeepsInv(s: State, a: Action)
    requires Inv(s) && Enabled(s, a)
    ensures Inv(Step(s, a))
  {
  }

  lemma {:induction false} RunKeepsInv(s: State, run: seq<Action>)
    requires Inv(s) && IsRun(s, run)
    ensures Inv(Run(s, run))
    decreases run
  {
    if run != [] {
      StepKeepsInv(s, run[0]);
      RunKeepsInv(Step(s, run[0]), run[1..]);
    }
  }

  /** However many offers race and however often the routine restarts, at most one is alive or about to be. */
  lemma AtMostOneRoutine(run: seq<Action>)
    requires IsRun(INIT, run)
    ensures |Run(INIT, run).creators| + |Run(INIT, run).routines| <= 1
    ensures Run(INIT, run).routines != {} ==> Run(INIT, run).mediaThreadStarted
  {
    RunKeepsInv(INIT, run);
  }

  /** After a failed THREAD_CREATE no sender routine is ever started again. */
  lemma {:induction false} FailedCreateIsFinal(s: State, run: seq<Action>)
    requires s == State(true, {}, {})
    requires IsRun(s, run)
    ensures Run(s, run) == s
    decreases run
  {
    if run != [] {
      assert Step(s, run[0]) == s;
      FailedCreateIsFinal(s, run[1..]);
    }
  }

  /** The flag is set only while a routine runs or is about to be created. */
  ghost predicate Honest(s: State) {
    s.mediaThreadStarted ==> s.creators + s.routines != {}
  }

  lemma {:induction false} HonestIffCreatesSucceed(s: State, run: seq<Action>)
    requires Inv(s) && Honest(s) && IsRun(s, run)
    ensures Honest(Run(s, run)) <==> forall a :: a in run ==> !(a.Create? && !a.ok)
    decreases run
  {
    if run != [] {
      var a, s1 := run[0], Step(s, run[0]);
      assert forall b :: b in run <==> b == a || b in run[1..];
      StepKeepsInv(s, a);
      if a.Create? && !a.ok {
        FailedCreateLeaves(s, a);
        FailedCreateIsFinal(s1, run[1..]);
      } else {
        StepStaysHonest(s, a);
        HonestIffCreatesSucceed(s1, run[1..]);
      }
    }
  }

  lemma FailedCreateLeaves(s: State, a: Action)
    requires Inv(s) && Enabled(s, a) && a.Create? && !a.ok
    ensures Step(s, a) == State(true, {}, {})
  {
    assert s.creators == {a.handler} + (s.creators - {a.handler});
    assert |s.creators| == 1 + |s.creators - {a.handler}|;
  }

  lemma StepStaysHonest(s: State, a: Action)
    requires Inv(s) && Honest(s) && Enabled(s, a) && !(a.Create? && !a.ok)
    ensures Honest(Step(s, a))
  {
    var s' := Step(s, a);
    match a
    case Exchange(h) => assert !s.mediaThreadStarted ==> h in s'.creators + s'.routines;
    case Create(h, r, ok) => assert r in s'.creators + s'.routines;
    case Clear(r) =>
  }

  /**
   In every run from the start, a set flag means that a sender routine runs or is about to be
   created, exactly if no THREAD_CREATE has failed.
   */
  lemma FlagIsHonestIff(run: seq<Action>)
    requires IsRun(INIT, run)
    ensures var s := Run(INIT, run);
      (s.mediaThreadStarted ==> s.creators + s.routines != {}) <==> forall a :: a in run ==> !(a.Create? && !a.ok)
  {
    HonestIffCreatesSucceed(INIT, run);
  }

  /** A routine that ends leaves nothing behind: the next offer starts another one. */
  lemma NextOfferStartsAgain(s: State, r: nat, h: nat, r': nat)
    requires Inv(s) && r in s.routines
    ensures Enabled(s, Clear(r))
    ensures var s1 := Step(s, Clear(r));
      && Enabled(s1, Exchange(h))
      && var s2 := Step(s1, Exchange(h));
        && Enabled(s2, Create(h, r', true))
        && Step(s2, Create(h, r', true)) == State(true, {}, {r'})
  {
    assert s.creators == {} && s.routines == {r} by {
      assert s.routines == {r} + (s.routines - {r});
      assert |s.routines| == 1 + |s.routines - {r}|;
    }
    assert Step(s, Clear(r)) == INIT;
    assert Step(INIT, Exchange(h)) == State(true, {h}, {});
  }

  lemma FailedCreateHappens()
    ensures IsRun(INIT, [Exchange(0), Create(0, 0, false)])
    ensures Run(INIT, [Exchange(0), Create(0, 0, false)]) == State(true, {}, {})
  {
  }
}
