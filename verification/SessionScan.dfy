/**
 The cleanup pass over the streaming session list (samples/Common.c, sessionCleanupWait).
 A terminated session is replaced by the last one of the list and the count is decremented;
 the loop then moves on without looking at the session it has just moved in.
 */
module SessionScan {
  import opened Samples

  /** `list` after slot `i` was overwritten with the last slot and the count decremented. */
  function SwapRemove(list: seq<Handle>, i: nat): (r: seq<Handle>)
    requires i < |list|
    ensures |r| == |list| - 1
  {
    var last := |list| - 1;
    if i == last then list[..last] else list[..last][i := list[last]]
  }

  /** What the loop leaves in the list when it continues at slot `i`. */
  function ScanFrom(list: seq<Handle>, i: nat, dead: set<Handle>): seq<Handle>
    decreases |list| - i
  {
    if i >= |list| then list
    else if list[i] in dead then ScanFrom(SwapRemove(list, i), i + 1, dead)
    else ScanFrom(list, i + 1, dead)
  }

  /** The sessions that the loop frees when it continues at slot `i`, in that order. */
  function RemovedFrom(list: seq<Handle>, i: nat, dead: set<Handle>): seq<Handle>
    decreases |list| - i
  {
    if i >= |list| then []
    else if list[i] in dead then [list[i]] + RemovedFrom(SwapRemove(list, i), i + 1, dead)
    else RemovedFrom(list, i + 1, dead)
  }

  function Scan(list: seq<Handle>, dead: set<Handle>): seq<Handle> {
    ScanFrom(list, 0, dead)
  }

  function Removed(list: seq<Handle>, dead: set<Handle>): seq<Handle> {
    RemovedFrom(list, 0, dead)
  }

  /** Number of terminated sessions in the list. */
  function CountDead(list: seq<Handle>, dead: set<Handle>): nat {
    if list == [] then 0
    else CountDead(list[..|list| - 1], dead) + if list[|list| - 1] in dead then 1 else 0
  }

  lemma {:induction false} CountDeadConcat(a: seq<Handle>, b: seq<Handle>, dead: set<Handle>)
    ensures CountDead(a + b, dead) == CountDead(a, dead) + CountDead(b, dead)
  {
    if b == [] {
      assert a + b == a;
    } else {
      assert (a + b)[..|a + b| - 1] == a + b[..|b| - 1];
      CountDeadConcat(a, b[..|b| - 1], dead);
    }
  }

  lemma {:induction false} CountDeadBounds(list: seq<Handle>, dead: set<Handle>)
    ensures CountDead(list, dead) <= |list|
    ensures CountDead(list, dead) == 0 <==> forall h :: h in list ==> h !in dead
    ensures CountDead(list, dead) == |list| <==> forall h :: h in list ==> h in dead
  {
    if list != [] {
      var init := list[..|list| - 1];
      CountDeadBounds(init, dead);
      assert list == init + [list[|list| - 1]];
      assert forall h :: h in list <==> h in init || h == list[|list| - 1];
    }
  }

  lemma SwapRemoveMultiset(list: seq<Handle>, i: nat)
    requires i < |list|
    ensures multiset(list) == multiset(SwapRemove(list, i)) + multiset([list[i]])
  {
    var last := |list| - 1;
    var init := list[..last];
    assert list == init + [list[last]];
    if i < last {
      assert list[i] == init[i];
    }
  }

  lemma SwapRemoveParts(list: seq<Handle>, i: nat)
    requires i < |list| - 1
    ensures var last := |list| - 1;
      && list == list[..i] + [list[i]] + list[i + 1..last] + [list[last]]
      && SwapRemove(list, i) == list[..i] + [list[last]] + list[i + 1..last]
  {
  }

  lemma SwapRemoveCount(list: seq<Handle>, i: nat, dead: set<Handle>)
    requires i < |list|
    ensures CountDead(list, dead)
         == CountDead(SwapRemove(list, i), dead) + if list[i] in dead then 1 else 0
  {
    var last := |list| - 1;
    if i < last {
      var a, x, c, y := list[..i], list[i], list[i + 1..last], list[last];
      SwapRemoveParts(list, i);
      SwapCount(a, x, c, y, dead);
    }
  }

  lemma SwapCount(a: seq<Handle>, x: Handle, c: seq<Handle>, y: Handle, dead: set<Handle>)
    ensures CountDead(a + [x] + c + [y], dead) == CountDead(a + [y] + c, dead) + if x in dead then 1 else 0
  {
    CountDeadConcat(a + [x] + c, [y], dead);
    CountDeadBounds([y], dead);
    CountDeadMiddle(a, x, c, dead);
    CountDeadMiddle(a, y, c, dead);
  }

  lemma CountDeadMiddle(a: seq<Handle>, x: Handle, c: seq<Handle>, dead: set<Handle>)
    ensures CountDead(a + [x] + c, dead)
         == CountDead(a, dead) + CountDead(c, dead) + if x in dead then 1 else 0
  {
    CountDeadConcat(a + [x], c, dead);
    CountDeadConcat(a, [x], dead);
    CountDeadBounds([x], dead);
  }

  /** A pass loses nothing and invents nothing: the list is split into what stays and what is freed. */
  lemma {:induction false} ScanFromSplits(list: seq<Handle>, i: nat, dead: set<Handle>)
    ensures multiset(list) == multiset(ScanFrom(list, i, dead)) + multiset(RemovedFrom(list, i, dead))
    ensures forall h :: h in RemovedFrom(list, i, dead) ==> h in dead
    ensures CountDead(list, dead) == CountDead(ScanFrom(list, i, dead), dead) + |RemovedFrom(list, i, dead)|
    decreases |list| - i
  {
    if i >= |list| {
    } else if list[i] in dead {
      SwapRemoveMultiset(list, i);
      SwapRemoveCount(list, i, dead);
      ScanFromSplits(SwapRemove(list, i), i + 1, dead);
    } else {
      ScanFromSplits(list, i + 1, dead);
    }
  }

  /** Visited slots are final, and each terminated session left behind was moved in by a removal. */
  lemma {:induction false} ScanFromBound(list: seq<Handle>, i: nat, dead: set<Handle>)
    requires i <= |list|
    ensures i <= |ScanFrom(list, i, dead)| + |RemovedFrom(list, i, dead)|
    ensures CountDead(ScanFrom(list, i, dead), dead) <= CountDead(list[..i], dead) + |RemovedFrom(list, i, dead)|
    decreases |list| - i
  {
    if i == |list| {
      assert list[..i] == list;
    } else if list[i] in dead {
      var next := SwapRemove(list, i);
      if i == |next| {
        assert next == list[..i];
      } else {
        ScanFromBound(next, i + 1, dead);
        assert next[..i + 1] == list[..i] + [next[i]];
        CountDeadConcat(list[..i], [next[i]], dead);
        assert CountDead([next[i]], dead) <= 1 by { CountDeadBounds([next[i]], dead); }
      }
    } else {
      ScanFromBound(list, i + 1, dead);
      assert list[..i + 1] == list[..i] + [list[i]];
      CountDeadConcat(list[..i], [list[i]], dead);
      CountDeadBounds([list[i]], dead);
    }
  }

  /**
   One pass frees only terminated sessions, keeps every other session, and leaves at most as many
   terminated sessions as it freed: it at least halves their number.
   */
  lemma ScanHalves(list: seq<Handle>, dead: set<Handle>)
    ensures multiset(list) == multiset(Scan(list, dead)) + multiset(Removed(list, dead))
    ensures forall h :: h in Removed(list, dead) ==> h in dead
    ensures forall h :: h in list && h !in dead ==> h in Scan(list, dead)
    ensures CountDead(Scan(list, dead), dead) <= |Removed(list, dead)|
    ensures CountDead(list, dead) == CountDead(Scan(list, dead), dead) + |Removed(list, dead)|
    ensures 2 * CountDead(Scan(list, dead), dead) <= CountDead(list, dead)
  {
    ScanFromSplits(list, 0, dead);
    ScanFromBound(list, 0, dead);
    assert list[..0] == [];
    forall h | h in list && h !in dead
      ensures h in Scan(list, dead)
    {
      assert multiset(list)[h] > 0;
    }
  }

  /** Slots before `i` stay as they are. */
  lemma {:induction false} VisitedStay(list: seq<Handle>, i: nat, dead: set<Handle>)
    requires i <= |list|
    ensures i <= |ScanFrom(list, i, dead)| && ScanFrom(list, i, dead)[..i] == list[..i]
    decreases |list| - i
  {
    if i < |list| {
      var next := if list[i] in dead then SwapRemove(list, i) else list;
      assert next[..i] == list[..i];
      if i < |next| {
        VisitedStay(next, i + 1, dead);
        assert ScanFrom(next, i + 1, dead)[..i + 1][..i] == next[..i + 1][..i];
      }
    }
  }

  /** The last t - 1 slots, where t is the number of terminated sessions, hold none of them. */
  ghost predicate TailIsLive(list: seq<Handle>, dead: set<Handle>) {
    forall j :: 0 <= j < |list| && |list| - CountDead(list, dead) < j ==> list[j] !in dead
  }

  lemma LivePrefix(list: seq<Handle>, i: nat, dead: set<Handle>)
    requires i <= |list| && forall h :: h in list[..i] ==> h !in dead
    ensures CountDead(list, dead) == CountDead(list[i..], dead) <= |list| - i
  {
    assert list == list[..i] + list[i..];
    CountDeadConcat(list[..i], list[i..], dead);
    CountDeadBounds(list[..i], dead);
    CountDeadBounds(list[i..], dead);
  }

  /** A terminated session is replaced by the last one, which has not terminated. */
  lemma SwapTail(list: seq<Handle>, i: nat, dead: set<Handle>)
    requires i < |list| - 1 && list[i] in dead && list[|list| - 1] !in dead
    requires forall h :: h in list[..i] ==> h !in dead
    ensures forall h :: h in SwapRemove(list, i)[..i + 1] ==> h !in dead
    ensures TailIsLive(SwapRemove(list, i), dead) <==> TailIsLive(list, dead)
  {
    var next, last := SwapRemove(list, i), |list| - 1;
    assert next[..i + 1] == list[..i] + [list[last]];
    SwapRemoveCount(list, i, dead);
    LivePrefix(next, i + 1, dead);
    var n := last - CountDead(next, dead);
    assert i < n == |list| - CountDead(list, dead);
    assert forall j :: n < j < last ==> next[j] == list[j];
  }

  /** A terminated session that is moved in is not looked at again. */
  lemma SwapLeaves(list: seq<Handle>, i: nat, dead: set<Handle>)
    requires i < |list| - 1 && list[i] in dead && list[|list| - 1] in dead
    ensures CountDead(ScanFrom(list, i, dead), dead) > 0
    ensures !TailIsLive(list, dead)
  {
    var next, last := SwapRemove(list, i), |list| - 1;
    VisitedStay(next, i + 1, dead);
    var rest := ScanFrom(list, i, dead);
    assert rest[i] == rest[..i + 1][i] == next[i] == list[last];
    CountDeadBounds(rest, dead);
    SwapRemoveCount(list, i, dead);
    assert next[i] in next;
    CountDeadBounds(next, dead);
  }

  lemma {:induction false} ScanFromClears(list: seq<Handle>, i: nat, dead: set<Handle>)
    requires i <= |list| && forall h :: h in list[..i] ==> h !in dead
    ensures CountDead(ScanFrom(list, i, dead), dead) == 0 <==> TailIsLive(list, dead)
    decreases |list| - i
  {
    var last := |list| - 1;
    LivePrefix(list, i, dead);
    if i == |list| {
    } else if list[i] !in dead {
      assert list[..i + 1] == list[..i] + [list[i]];
      ScanFromClears(list, i + 1, dead);
    } else if i == last {
      assert SwapRemove(list, i) == list[..i];
      CountDeadBounds(list[..i], dead);
    } else if list[last] in dead {
      SwapLeaves(list, i, dead);
    } else {
      SwapTail(list, i, dead);
      ScanFromClears(SwapRemove(list, i), i + 1, dead);
    }
  }

  /** One pass over t terminated sessions frees them all exactly if the last t - 1 slots hold none of them. */
  lemma OnePassClearsIff(list: seq<Handle>, dead: set<Handle>)
    ensures (forall h :: h in Scan(list, dead) ==> h !in dead)
       <==> forall j :: 0 <= j < |list| && |list| - CountDead(list, dead) < j ==> list[j] !in dead
  {
    ScanFromClears(list, 0, dead);
    CountDeadBounds(Scan(list, dead), dead);
  }

  /** What is left depends only on the sessions from slot `i` on. */
  lemma {:induction false} ScanFromAgrees(list: seq<Handle>, i: nat, a: set<Handle>, b: set<Handle>)
    requires forall j :: i <= j < |list| ==> (list[j] in a <==> list[j] in b)
    ensures ScanFrom(list, i, a) == ScanFrom(list, i, b)
    ensures RemovedFrom(list, i, a) == RemovedFrom(list, i, b)
    decreases |list| - i
  {
    if i < |list| {
      ScanFromAgrees(if list[i] in a then SwapRemove(list, i) else list, i + 1, a, b);
    }
  }

  /** `n` passes during which no further session terminates. */
  function Scans(list: seq<Handle>, n: nat, dead: set<Handle>): seq<Handle>
    decreases n
  {
    if n == 0 then list else Scans(Scan(list, dead), n - 1, dead)
  }

  /** floor(log2(t)). */
  function Log2(t: nat): nat
    requires t >= 1
  {
    if t == 1 then 0 else 1 + Log2(t / 2)
  }

  lemma {:induction false} Log2Monotone(a: nat, b: nat)
    requires 1 <= a <= b
    ensures Log2(a) <= Log2(b)
  {
    if a > 1 {
      Log2Monotone(a / 2, b / 2);
    }
  }

  lemma {:induction false} ScansKeepClear(list: seq<Handle>, n: nat, dead: set<Handle>)
    requires CountDead(list, dead) == 0
    ensures CountDead(Scans(list, n, dead), dead) == 0
    decreases n
  {
    if n > 0 {
      ScanHalves(list, dead);
      ScansKeepClear(Scan(list, dead), n - 1, dead);
    }
  }

  lemma {:induction false} ScansReach(list: seq<Handle>, dead: set<Handle>, n: nat)
    requires CountDead(list, dead) >= 1
    requires Log2(CountDead(list, dead)) + 1 <= n
    ensures CountDead(Scans(list, n, dead), dead) == 0
    decreases n
  {
    var next := Scan(list, dead);
    ScanHalves(list, dead);
    if CountDead(next, dead) == 0 {
      ScansKeepClear(next, n - 1, dead);
    } else {
      Log2Monotone(CountDead(next, dead), CountDead(list, dead) / 2);
      ScansReach(next, dead, n - 1);
    }
  }

  /** With t >= 1 terminated sessions, floor(log2 t) + 1 passes clear them all. */
  lemma ScansClearAll(list: seq<Handle>, dead: set<Handle>)
    requires CountDead(list, dead) >= 1
    ensures forall h :: h in Scans(list, Log2(CountDead(list, dead)) + 1, dead) ==> h !in dead
  {
    var n := Log2(CountDead(list, dead)) + 1;
    ScansReach(list, dead, n);
    CountDeadBounds(Scans(list, n, dead), dead);
  }

  /** A pass over a list of terminated sessions only skips every second one. */
  lemma {:induction false} ScanFromAllDead(list: seq<Handle>, i: nat, dead: set<Handle>)
    requires forall h :: h in list ==> h in dead
    requires i <= |list|
    ensures |ScanFrom(list, i, dead)| == i + (|list| - i) / 2
    decreases |list| - i
  {
    if i < |list| {
      var next := SwapRemove(list, i);
      assert forall h :: h in next ==> h in list;
      if i < |next| {
        ScanFromAllDead(next, i + 1, dead);
      }
    }
  }

  /** The bound is reached: t >= 1 sessions that all terminated are not gone after floor(log2 t) passes. */
  lemma {:induction false} ScansBoundIsTight(list: seq<Handle>, dead: set<Handle>)
    requires list != []
    requires forall h :: h in list ==> h in dead
    ensures Scans(list, Log2(|list|), dead) != []
    decreases |list|
  {
    if |list| > 1 {
      var next := Scan(list, dead);
      ScanFromAllDead(list, 0, dead);
      ScanFromSplits(list, 0, dead);
      forall h | h in next
        ensures h in dead
      {
        assert multiset(next)[h] > 0;
        assert h in multiset(list);
      }
      ScansBoundIsTight(next, dead);
    }
  }
}
