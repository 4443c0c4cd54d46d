/**
 Certificates are generated ahead of time by a timer (samples/Common.c, pregenerateCertTimerCallback) and
 used up by new peer connections (initializePeerConnection).
 */
module CertificatePool {
  import opened Samples

  /** MAX_RTCCONFIGURATION_CERTIFICATES */
  const MAX_CERTIFICATES := 3

  /** Certificates are numbered in the order of their generation; `used` are those given to a peer connection. */
  datatype State = State(pool: seq<nat>, generated: nat, freed: seq<nat>, used: seq<nat>)

  /** Outcomes of the calls: lock busy, createRtcCertificate, stackQueueEnqueue. */
  datatype Event =
    | Timer(busy: bool, created: bool, enqueued: bool)
    | Connect(ready: bool)  // `ready`: the configuration is complete, so that a certificate is dequeued

  const INIT := State([], 0, [], [])

  function TimerStep(s: State, busy: bool, created: bool, enqueued: bool): State {
    if busy || |s.pool| == MAX_CERTIFICATES || !created then s
    else if enqueued then s.(generated := s.generated + 1, pool := s.pool + [s.generated])
    else s.(generated := s.generated + 1, freed := s.freed + [s.generated])
  }

  /** The certificate is freed after createPeerConnection, whether that succeeds or not. */
  function ConnectStep(s: State, ready: bool): State {
    if !ready || s.pool == [] then s
    else s.(pool := s.pool[1..], used := s.used + [s.pool[0]], freed := s.freed + [s.pool[0]])
  }

  function Step(s: State, e: Event): State {
    match e
    case Timer(busy, created, enqueued) => TimerStep(s, busy, created, enqueued)
    case Connect(ready) => ConnectStep(s, ready)
  }

  function Run(s: State, es: seq<Event>): State
    decreases es
  {
    if es == [] then s else Run(Step(s, es[0]), es[1..])
  }

  /** Each generated certificate is pooled or was freed, not both, and neither twice; used ones were freed. */
  ghost predicate Inv(s: State) {
    && |s.pool| <= MAX_CERTIFICATES
    && Distinct(s.pool) && Distinct(s.freed) && Distinct(s.used)
    && (forall c :: 0 <= c < s.generated ==> (c in s.pool <==> c !in s.freed))
    && (forall c :: c in s.pool || c in s.freed ==> c < s.generated)
    && (forall c :: c in s.used ==> c in s.freed)
  }

  lemma DistinctSnoc(cs: seq<nat>, c: nat)
    requires Distinct(cs) && c !in cs
    ensures Distinct(cs + [c])
  {
  }

  lemma StepKeepsInv(s: State, e: Event)
    requires Inv(s)
    ensures Inv(Step(s, e))
  {
    match e
    case Timer(busy, created, enqueued) =>
      assert s.generated !in s.pool && s.generated !in s.freed;
      DistinctSnoc(s.pool, s.generated);
      DistinctSnoc(s.freed, s.generated);
    case Connect(ready) =>
      if ready && s.pool != [] {
        var c := s.pool[0];
        assert s.pool == [c] + s.pool[1..];
        assert c in s.pool && c !in s.pool[1..];
        DistinctSnoc(s.freed, c);
        DistinctSnoc(s.used, c);
      }
  }

  lemma {:induction false} RunKeepsInv(s: State, es: seq<Event>)
    requires Inv(s)
    ensures Inv(Run(s, es))
    decreases es
  {
    if es != [] {
      StepKeepsInv(s, es[0]);
      RunKeepsInv(Step(s, es[0]), es[1..]);
    }
  }

  /**
   In every run the pool stays within its maximum, no certificate is given to two peer connections,
   and each generated certificate is pooled or was freed exactly once.
   */
  lemma CertificatesConserved(es: seq<Event>)
    ensures var s := Run(INIT, es);
      && |s.pool| <= MAX_CERTIFICATES
      && Distinct(s.used) && (forall c :: c in s.used ==> c !in s.pool)
      && Distinct(s.pool) && Distinct(s.freed)
      && (forall c :: 0 <= c < s.generated ==> (c in s.pool <==> c !in s.freed))
  {
    RunKeepsInv(INIT, es);
  }

  /** A certificate that the timer creates goes to the end of the pool unless there are 3 or enqueueing fails. */
  predicate Pools(s: State, e: Event) {
    e.Timer? && !e.busy && e.created && e.enqueued && |s.pool| != 3
  }

  /** A connection that is ready finds a certificate. */
  predicate Serves(s: State, e: Event) {
    e.Connect? && e.ready && s.pool != []
  }

  /** The certificates pooled in a run, in order. */
  function Pooled(s: State, es: seq<Event>): seq<nat>
    decreases es
  {
    if es == [] then []
    else (if Pools(s, es[0]) then [s.generated] else []) + Pooled(Step(s, es[0]), es[1..])
  }

  /** The number of connections that find a certificate in a run. */
  function Served(s: State, es: seq<Event>): nat
    decreases es
  {
    if es == [] then 0 else (if Serves(s, es[0]) then 1 else 0) + Served(Step(s, es[0]), es[1..])
  }

  /**
   First in, first out: the connections that find a certificate are given, in turn, those that were
   pooled first, and what was pooled and not given is still in the pool.
   */
  lemma {:induction false} FirstPooledFirstUsed(s: State, es: seq<Event>) returns (given: seq<nat>)
    ensures |given| == Served(s, es)
    ensures Run(s, es).used == s.used + given
    ensures s.pool + Pooled(s, es) == given + Run(s, es).pool
    decreases es
  {
    given := [];
    if es != [] {
      var s1 := Step(s, es[0]);
      var rest := FirstPooledFirstUsed(s1, es[1..]);
      if Serves(s, es[0]) {
        given := [s.pool[0]] + rest;
        assert s.used + given == s1.used + rest;
        assert s.pool + Pooled(s, es) == [s.pool[0]] + (s1.pool + Pooled(s1, es[1..]));
        assert given + Run(s, es).pool == [s.pool[0]] + (rest + Run(s, es).pool);
      } else {
        given := rest;
        assert s.pool + Pooled(s, es) == s1.pool + Pooled(s1, es[1..]);
      }
    }
  }

  class PregeneratedCertificates {
    var pregeneratedCertificates: seq<nat>
    var generated: nat
    ghost var freed: seq<nat>
    ghost var used: seq<nat>

    ghost function View(): State
      reads this
    {
      State(pregeneratedCertificates, generated, freed, used)
    }

    constructor ()
      ensures View() == INIT
    {
      pregeneratedCertificates, generated, freed, used := [], 0, [], [];
    }

    /** pregenerateCertTimerCallback; the certificate is freed on exit unless it was enqueued. */
    method PregenerateCertTimerCallback(busy: bool, created: bool, enqueued: bool)
      modifies this
      ensures View() == TimerStep(old(View()), busy, created, enqueued)
    {
      if busy {
        return;
      }
      var certCount := |pregeneratedCertificates|;
      if certCount == MAX_CERTIFICATES || !created {
        return;
      }
      var pRtcCertificate := generated;
      generated := generated + 1;
      var freeOnExit := true;
      if enqueued {
        pregeneratedCertificates := pregeneratedCertificates + [pRtcCertificate];
        freeOnExit := false;
      }
      if freeOnExit {
        freed := freed + [pRtcCertificate];
      }
    }

    /** The part of initializePeerConnection that takes a certificate, for either outcome of createPeerConnection. */
    method TakeCertificate(ready: bool)
      modifies this
      ensures View() == ConnectStep(old(View()), ready)
    {
      if ready && pregeneratedCertificates != [] {
        var pRtcCertificate := pregeneratedCertificates[0];
        pregeneratedCertificates := pregeneratedCertificates[1..];
        used := used + [pRtcCertificate];
        freed := freed + [pRtcCertificate];
      }
    }
  }
}
