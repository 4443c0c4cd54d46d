/**
 The pacing of the media senders (samples/kvsWebRTCClientMaster.c). The video loop shortens its sleep by
 the time the previous wake-up was late; the audio loop sleeps a full frame every time. A delay is what
 one iteration adds to its sleep: the work before it and the oversleep after it.
 */
module FramePacing {

  /** SAMPLE_VIDEO_FRAME_DURATION, in hundreds of nanoseconds */
  const VIDEO_FRAME: nat := 10_000_000 / 25

  /** SAMPLE_AUDIO_FRAME_DURATION */
  const AUDIO_FRAME: nat := 20 * 10_000

  /** NUMBER_OF_H264_FRAME_FILES and NUMBER_OF_H265_FRAME_FILES */
  const VIDEO_FILES: nat := 1500

  /** NUMBER_OF_OPUS_FRAME_FILES */
  const AUDIO_FILES: nat := 618

  function Sum(delays: seq<nat>): nat {
    if delays == [] then 0 else Sum(delays[..|delays| - 1]) + delays[|delays| - 1]
  }

  /** Whole frames lost to delays. */
  function Skipped(delays: seq<nat>): nat {
    if delays == [] then 0 else Skipped(delays[..|delays| - 1]) + delays[|delays| - 1] / VIDEO_FRAME
  }

  /** lastFrameTime after the iterations with these delays. */
  function VideoWake(start: nat, delays: seq<nat>): (w: nat)
    ensures w >= start
  {
    if delays == [] then start
    else
      var n := |delays| - 1;
      var last := VideoWake(start, delays[..n]);
      last + delays[n] + (VIDEO_FRAME - (last - start) % VIDEO_FRAME)
  }

  function AudioWake(start: nat, delays: seq<nat>): nat {
    if delays == [] then start
    else AudioWake(start, delays[..|delays| - 1]) + delays[|delays| - 1] + AUDIO_FRAME
  }

  lemma NextSlot(slot: nat, late: nat, delay: nat)
    requires late < VIDEO_FRAME
    ensures var elapsed := VIDEO_FRAME * slot + late;
      elapsed + delay + (VIDEO_FRAME - elapsed % VIDEO_FRAME)
      == VIDEO_FRAME * (slot + 1 + delay / VIDEO_FRAME) + delay % VIDEO_FRAME
  {
    Remainder(slot, late);
  }

  lemma Remainder(slot: nat, late: nat)
    requires late < VIDEO_FRAME
    ensures (VIDEO_FRAME * slot + late) % VIDEO_FRAME == late
  {
    var n := VIDEO_FRAME * slot + late;
    assert n == 400_000 * slot + late;
    assert n % 400_000 == late;
  }

  /**
   Exactly when the sender wakes up, for any delays: a delay that fits into a frame is made up for
   completely by the next sleep; a longer one costs its whole frames for good.
   */
  lemma {:induction false} VideoWakeExactly(start: nat, delays: seq<nat>)
    ensures VideoWake(start, delays)
         == start + VIDEO_FRAME * (|delays| + Skipped(delays))
            + if delays == [] then 0 else delays[|delays| - 1] % VIDEO_FRAME
  {
    if delays != [] {
      var n := |delays| - 1;
      var before := delays[..n];
      VideoWakeExactly(start, before);
      NextSlot(n + Skipped(before), if before == [] then 0 else before[n - 1] % VIDEO_FRAME, delays[n]);
    }
  }

  /** The k-th wake-up falls into the k-th frame, for every k up to the number of iterations. */
  ghost predicate OnSchedule(start: nat, delays: seq<nat>) {
    forall k :: 0 <= k <= |delays| ==> InSlot(start, delays, k)
  }

  ghost predicate InSlot(start: nat, delays: seq<nat>, k: nat)
    requires k <= |delays|
  {
    start + k * VIDEO_FRAME <= VideoWake(start, delays[..k]) < start + (k + 1) * VIDEO_FRAME
  }

  lemma {:induction false} SkippedZero(delays: seq<nat>)
    ensures Skipped(delays) == 0 <==> forall j :: 0 <= j < |delays| ==> delays[j] < VIDEO_FRAME
  {
    if delays != [] {
      SkippedZero(delays[..|delays| - 1]);
    }
  }

  lemma SlotIffNoneSkipped(start: nat, delays: seq<nat>, k: nat)
    requires k <= |delays|
    ensures InSlot(start, delays, k) <==> Skipped(delays[..k]) == 0
  {
    var before := delays[..k];
    VideoWakeExactly(start, before);
    SlotArithmetic(k, Skipped(before), if before == [] then 0 else before[k - 1] % VIDEO_FRAME);
  }

  lemma SlotArithmetic(k: nat, skipped: nat, late: nat)
    requires late < VIDEO_FRAME
    ensures k * VIDEO_FRAME <= VIDEO_FRAME * (k + skipped) + late < (k + 1) * VIDEO_FRAME <==> skipped == 0
  {
  }

  /** No drift over any number of frames iff every delay is shorter than a frame. */
  lemma NoDriftIffDelaysFit(start: nat, delays: seq<nat>)
    ensures OnSchedule(start, delays) <==> forall j :: 0 <= j < |delays| ==> delays[j] < VIDEO_FRAME
  {
    if OnSchedule(start, delays) {
      assert InSlot(start, delays, |delays|);
      SlotIffNoneSkipped(start, delays, |delays|);
      assert delays[..|delays|] == delays;
      SkippedZero(delays);
    }
    if forall j :: 0 <= j < |delays| ==> delays[j] < VIDEO_FRAME {
      forall k | 0 <= k <= |delays|
        ensures InSlot(start, delays, k)
      {
        SkippedZero(delays[..k]);
        SlotIffNoneSkipped(start, delays, k);
      }
    }
  }

  /** The audio sender never catches up: every delay adds to its lag, which stays below a frame iff their sum does. */
  lemma {:induction false} AudioLagIsSum(start: nat, delays: seq<nat>)
    ensures AudioWake(start, delays) == start + |delays| * AUDIO_FRAME + Sum(delays)
    ensures AudioWake(start, delays) < start + (|delays| + 1) * AUDIO_FRAME <==> Sum(delays) < AUDIO_FRAME
  {
    if delays != [] {
      AudioLagIsSum(start, delays[..|delays| - 1]);
    }
  }

  /**
   Number of the frame file sent next, of `files` in all, where `resets[j]` says that some session was
   not ready for frame j.
   */
  function FileAt(files: nat, resets: seq<bool>): nat
    requires files > 0
  {
    if resets == [] then 1
    else
      var n := |resets| - 1;
      (if resets[n] then 0 else FileAt(files, resets[..n])) % files + 1
  }

  /** Since the last reset the files are sent in order from the first (a key frame), round and round. */
  lemma {:induction false} FilesSinceReset(files: nat, resets: seq<bool>, r: nat)
    requires files > 0 && r <= |resets|
    requires r == 0 || resets[r - 1]
    requires forall j :: r <= j < |resets| ==> !resets[j]
    ensures FileAt(files, resets) == 1 + (|resets| - r) % files
    decreases |resets|
  {
    if |resets| > r {
      FilesSinceReset(files, resets[..|resets| - 1], r);
      Successor(|resets| - 1 - r, files);
    } else if r > 0 {
      assert 0 % files == 0;
    }
  }

  lemma Successor(n: nat, files: nat)
    requires files > 0
    ensures (n + 1) % files == (1 + n % files) % files
  {
    var q, r := n / files, n % files;
    assert n == q * files + r;
    if r + 1 < files {
      RemainderIs(n + 1, files, q, r + 1);
      RemainderIs(r + 1, files, 0, r + 1);
    } else {
      assert (q + 1) * files == q * files + files;
      RemainderIs(n + 1, files, q + 1, 0);
      RemainderIs(r + 1, files, 1, 0);
    }
  }

  lemma RemainderIs(n: nat, d: nat, q: nat, r: nat)
    requires n == q * d + r && r < d
    ensures n % d == r
  {
    var q', r' := n / d, n % d;
    assert n == q' * d + r';
    assert (q - q') * d == r' - r;
    assert q - q' >= 1 ==> (q - q') * d >= d;
    assert q - q' <= -1 ==> (q - q') * d + d <= 0;
  }

  datatype Frame = Frame(presentationTs: nat, file: nat, wake: nat)

  /** sendVideoPackets, with what its environment does in each iteration. */
  method SendVideoPackets(startTime: nat, delays: seq<nat>, resets: seq<bool>) returns (frames: seq<Frame>)
    requires |resets| == |delays|
    ensures |frames| == |delays|
    ensures forall k :: 0 <= k < |frames| ==>
      frames[k] == Frame((k + 1) * VIDEO_FRAME, FileAt(VIDEO_FILES, resets[..k]), VideoWake(startTime, delays[..k]))
    ensures (forall j :: 0 <= j < |delays| ==> delays[j] < VIDEO_FRAME) ==>
      forall k :: 0 <= k < |frames| ==>
        0 < frames[k].presentationTs - (frames[k].wake - startTime) <= VIDEO_FRAME
  {
    frames := [];
    var presentationTs, fileIndex, lastFrameTime := 0, 0, startTime;
    var k := 0;
    while k < |delays|
      invariant 0 <= k <= |delays| && |frames| == k
      invariant presentationTs == k * VIDEO_FRAME
      invariant fileIndex % VIDEO_FILES + 1 == FileAt(VIDEO_FILES, resets[..k])
      invariant lastFrameTime == VideoWake(startTime, delays[..k])
      invariant forall j :: 0 <= j < k ==>
        frames[j] == Frame((j + 1) * VIDEO_FRAME, FileAt(VIDEO_FILES, resets[..j]), VideoWake(startTime, delays[..j]))
    {
      assert delays[..k + 1][..k] == delays[..k] && resets[..k + 1][..k] == resets[..k];
      fileIndex := fileIndex % VIDEO_FILES + 1;
      presentationTs := presentationTs + VIDEO_FRAME;
      frames := frames + [Frame(presentationTs, fileIndex, lastFrameTime)];
      if resets[k] {
        fileIndex := 0;
      }
      var elapsed := lastFrameTime - startTime;
      var sleep := VIDEO_FRAME - elapsed % VIDEO_FRAME;
      lastFrameTime := lastFrameTime + delays[k] + sleep;
      k := k + 1;
    }
    NoDriftIffDelaysFit(startTime, delays);
    forall j | 0 <= j < |frames| && OnSchedule(startTime, delays)
      ensures 0 < frames[j].presentationTs - (frames[j].wake - startTime) <= VIDEO_FRAME
    {
      assert InSlot(startTime, delays, j);
    }
  }

  /** sendAudioPackets: a full frame of sleep in every iteration. */
  method SendAudioPackets(startTime: nat, delays: seq<nat>, resets: seq<bool>) returns (frames: seq<Frame>)
    requires |resets| == |delays|
    ensures |frames| == |delays|
    ensures forall k :: 0 <= k < |frames| ==>
      frames[k] == Frame((k + 1) * AUDIO_FRAME, FileAt(AUDIO_FILES, resets[..k]), AudioWake(startTime, delays[..k]))
  {
    frames := [];
    var presentationTs, fileIndex, now := 0, 0, startTime;
    var k := 0;
    while k < |delays|
      invariant 0 <= k <= |delays| && |frames| == k
      invariant presentationTs == k * AUDIO_FRAME
      invariant fileIndex % AUDIO_FILES + 1 == FileAt(AUDIO_FILES, resets[..k])
      invariant now == AudioWake(startTime, delays[..k])
      invariant forall j :: 0 <= j < k ==>
        frames[j] == Frame((j + 1) * AUDIO_FRAME, FileAt(AUDIO_FILES, resets[..j]), AudioWake(startTime, delays[..j]))
    {
      assert delays[..k + 1][..k] == delays[..k] && resets[..k + 1][..k] == resets[..k];
      fileIndex := fileIndex % AUDIO_FILES + 1;
      presentationTs := presentationTs + AUDIO_FRAME;
      frames := frames + [Frame(presentationTs, fileIndex, now)];
      if resets[k] {
        fileIndex := 0;
      }
      now := now + delays[k] + AUDIO_FRAME;
      k := k + 1;
    }
  }
}
