/**
 The observable history of the session manager: which candidate messages arrived, what became of
 each of them, and the calls made on each streaming session. Every property about runs that is not
 about the current data structures is stated on this log alone.
 */
module CallLog {
  import opened Samples

  /** COMPUTE_CRC32 of a peer id. */
  type Key = nat

  datatype Call =
    | Arrived(key: Key, id: nat)                                // an ICE candidate message came in
    | Described(session: Handle, ok: bool)                      // setRemoteDescription
    | Submitted(key: Key, session: Handle, id: nat, ok: bool)   // handleRemoteCandidate
    | Discarded(key: Key, id: nat)                              // freed with its pending queue
    | Freed(session: Handle)                                    // freeSampleStreamingSession

  /** The candidates received for `k`, in order of arrival. */
  function Arrivals(log: seq<Call>, k: Key): seq<nat> {
    if log == [] then []
    else
      var c := log[|log| - 1];
      Arrivals(log[..|log| - 1], k) + if c.Arrived? && c.key == k then [c.id] else []
  }

  /** The candidates received for `k` that were submitted or discarded, in that order. */
  function Settled(log: seq<Call>, k: Key): seq<nat> {
    if log == [] then []
    else
      var c := log[|log| - 1];
      Settled(log[..|log| - 1], k) + if (c.Submitted? || c.Discarded?) && c.key == k then [c.id] else []
  }

  /** The candidates received for `k` that were submitted to session `h`, in that order. */
  function SubmittedTo(log: seq<Call>, k: Key, h: Handle): seq<nat> {
    if log == [] then []
    else
      var c := log[|log| - 1];
      SubmittedTo(log[..|log| - 1], k, h) + if c.Submitted? && c.key == k && c.session == h then [c.id] else []
  }

  lemma {:induction false} ArrivalsConcat(a: seq<Call>, b: seq<Call>, k: Key)
    ensures Arrivals(a + b, k) == Arrivals(a, k) + Arrivals(b, k)
  {
    if b == [] {
      assert a + b == a;
    } else {
      assert (a + b)[..|a + b| - 1] == a + b[..|b| - 1];
      ArrivalsConcat(a, b[..|b| - 1], k);
    }
  }

  lemma {:induction false} SettledConcat(a: seq<Call>, b: seq<Call>, k: Key)
    ensures Settled(a + b, k) == Settled(a, k) + Settled(b, k)
  {
    if b == [] {
      assert a + b == a;
    } else {
      assert (a + b)[..|a + b| - 1] == a + b[..|b| - 1];
      SettledConcat(a, b[..|b| - 1], k);
    }
  }

  lemma {:induction false} SubmittedToConcat(a: seq<Call>, b: seq<Call>, k: Key, h: Handle)
    ensures SubmittedTo(a + b, k, h) == SubmittedTo(a, k, h) + SubmittedTo(b, k, h)
  {
    if b == [] {
      assert a + b == a;
    } else {
      assert (a + b)[..|a + b| - 1] == a + b[..|b| - 1];
      SubmittedToConcat(a, b[..|b| - 1], k, h);
    }
  }

  /**
   Every candidate is submitted to a session whose remote description was set successfully before,
   and that has not been freed before.
   */
  ghost predicate SafeSubmissions(log: seq<Call>) {
    forall i :: 0 <= i < |log| && log[i].Submitted? ==>
      Described(log[i].session, true) in log[..i] && Freed(log[i].session) !in log[..i]
  }

  /** No session is freed twice. */
  ghost predicate SingleFree(log: seq<Call>) {
    forall i :: 0 <= i < |log| && log[i].Freed? ==> log[i] !in log[..i]
  }

  lemma SafeAppend(a: seq<Call>, b: seq<Call>, h: Handle)
    requires forall c :: c in b ==> !c.Freed? && (c.Submitted? ==> c.session == h)
    requires exists c :: c in b && c.Submitted?
    ensures SafeSubmissions(a + b)
        <==> SafeSubmissions(a) && Freed(h) !in a && SafeFirst(a, b)
  {
    var log := a + b;
    var j :| 0 <= j < |b| && b[j].Submitted?;
    assert log[|a| + j] == b[j];
    assert forall i :: 0 <= i <= |a| ==> log[..i] == a[..i];
    assert forall i :: 0 <= i < |b| ==> log[..|a| + i] == a + b[..i];
    if SafeSubmissions(log) {
      forall i | 0 <= i < |a| && a[i].Submitted?
        ensures Described(a[i].session, true) in a[..i] && Freed(a[i].session) !in a[..i]
      {
        assert log[i] == a[i];
      }
      forall i | 0 <= i < |b| && b[i].Submitted?
        ensures Described(h, true) in a + b[..i]
      {
        assert log[|a| + i] == b[i];
      }
      assert Freed(h) !in a;
    }
    if SafeSubmissions(a) && Freed(h) !in a && SafeFirst(a, b) {
      forall i | 0 <= i < |log| && log[i].Submitted?
        ensures Described(log[i].session, true) in log[..i] && Freed(log[i].session) !in log[..i]
      {
        if i < |a| {
          assert log[i] == a[i];
        } else {
          assert log[i] == b[i - |a|];
          assert log[i] in b;
          assert log[..i] == a + b[..i - |a|];
          assert forall c :: c in b[..i - |a|] ==> c in b;
        }
      }
    }
  }

  /** Each submission in `b`, which follows `a`, comes after a successful description of its session. */
  ghost predicate SafeFirst(a: seq<Call>, b: seq<Call>) {
    forall i :: 0 <= i < |b| && b[i].Submitted? ==> Described(b[i].session, true) in a + b[..i]
  }

  lemma SafeAppendQuiet(a: seq<Call>, b: seq<Call>)
    requires forall c :: c in b ==> !c.Submitted?
    ensures SafeSubmissions(a + b) <==> SafeSubmissions(a)
  {
    var log := a + b;
    assert forall i :: 0 <= i <= |a| ==> log[..i] == a[..i];
    assert forall i :: 0 <= i < |a| ==> log[i] == a[i];
    assert forall i :: |a| <= i < |log| ==> log[i] in b;
  }

  lemma SingleFreeAppend(a: seq<Call>, b: seq<Call>)
    requires SingleFree(a) && SingleFree(b)
    requires forall c :: c in b && c.Freed? ==> c !in a
    ensures SingleFree(a + b)
  {
  }
}
