/** Camera poses for a rollout: a recorded trajectory first, then live keyboard control from where it stopped. */
module CameraReplay {
  import opened Prelude

  /** Keys held throughout a time interval. */
  datatype Segment<K> = Segment(start: real, end: real, keys: K)

  /** One model step's input: its time window, the frame times in it, the key segments and the first key press. */
  datatype Input<K> =
    Input(start: real, end: real, samples: seq<real>, segments: seq<Segment<K>>, takeover: Option<real>)

  /** How a pose moves under held keys for a positive time. */
  type Motion<!P, !K> = (P, K, real) -> P

  ghost predicate Increasing(times: seq<real>) {
    forall i, j :: 0 <= i < j < |times| ==> times[i] < times[j]
  }

  /** Non-empty intervals that adjoin and run exactly from `a` to `b`. */
  ghost predicate Covering<K>(segments: seq<Segment<K>>, a: real, b: real) {
    && segments != []
    && segments[0].start == a && segments[|segments| - 1].end == b
    && (forall i :: 0 <= i < |segments| ==> segments[i].start < segments[i].end)
    && (forall i, j :: 0 <= i < j < |segments| && j == i + 1 ==> segments[i].end == segments[j].start)
  }

  /** A non-empty window whose frame times lie after its start and no later than its end. */
  ghost predicate Good<K>(input: Input<K>) {
    && input.start < input.end
    && input.samples != [] && Increasing(input.samples)
    && input.samples[0] > input.start && input.samples[|input.samples| - 1] <= input.end
    && Covering(input.segments, input.start, input.end)
  }

  // ---------- integrate_chunk ----------

  function Moved<P, K>(motion: Motion<P, K>, pose: P, keys: K, duration: real): P {
    if duration <= 0.0 then pose else motion(pose, keys, duration)
  }

  /** The poses at the given times, and the pose at the end, starting from `pose` at time `t`. */
  function Walk<P, K>(motion: Motion<P, K>, pose: P, t: real, segments: seq<Segment<K>>, times: seq<real>): (seq<P>, P)
    decreases |segments|, |times|
  {
    if segments == [] then ([], pose)
    else if times != [] && times[0] <= segments[0].end then
      var p := Moved(motion, pose, segments[0].keys, times[0] - t);
      var (poses, last) := Walk(motion, p, times[0], segments, times[1..]);
      ([p] + poses, last)
    else if segments[0].end > t then
      Walk(motion, Moved(motion, pose, segments[0].keys, segments[0].end - t), segments[0].end, segments[1..], times)
    else
      Walk(motion, pose, t, segments[1..], times)
  }

  /** One pose per frame time when the segments reach the last of them. */
  lemma {:induction false} WalkCounts<P(!new), K(!new)>(motion: Motion<P, K>, pose: P, t: real,
                                                        segments: seq<Segment<K>>, times: seq<real>)
    requires Increasing(times)
    requires times != [] ==> segments != [] && times[|times| - 1] <= segments[|segments| - 1].end
    ensures |Walk(motion, pose, t, segments, times).0| == |times|
    decreases |segments|, |times|
  {
    if segments != [] {
      if times != [] && times[0] <= segments[0].end {
        WalkCounts(motion, Moved(motion, pose, segments[0].keys, times[0] - t), times[0], segments, times[1..]);
      } else if segments[0].end > t {
        WalkCounts(motion, Moved(motion, pose, segments[0].keys, segments[0].end - t), segments[0].end, segments[1..],
                   times);
      } else {
        WalkCounts(motion, pose, t, segments[1..], times);
      }
    }
  }

  /** The motion is asked for positive times only: what it does in no time at all never matters. */
  lemma {:induction false} OnlyTimeMoves<P(!new), K(!new)>(motion: Motion<P, K>, other: Motion<P, K>, pose: P, t: real,
                                                           segments: seq<Segment<K>>, times: seq<real>)
    requires forall p: P, keys: K, d: real :: d > 0.0 ==> motion(p, keys, d) == other(p, keys, d)
    ensures Walk(motion, pose, t, segments, times) == Walk(other, pose, t, segments, times)
    decreases |segments|, |times|
  {
    if segments != [] {
      var keys, end := segments[0].keys, segments[0].end;
      if times != [] && times[0] <= end {
        OnlyTimeMoves(motion, other, Moved(motion, pose, keys, times[0] - t), times[0], segments, times[1..]);
      } else if end > t {
        OnlyTimeMoves(motion, other, Moved(motion, pose, keys, end - t), end, segments[1..], times);
      } else {
        OnlyTimeMoves(motion, other, pose, t, segments[1..], times);
      }
    }
  }

  /** Frame times no later than `t`. */
  function UpTo(times: seq<real>, t: real): (n: nat)
    ensures n <= |times|
  {
    if times == [] then 0 else UpTo(times[..|times| - 1], t) + if times[|times| - 1] <= t then 1 else 0
  }

  lemma {:induction false} UpToFirst(times: seq<real>, t: real)
    requires Increasing(times) && times != []
    ensures UpTo(times, t) == if times[0] <= t then 1 + UpTo(times[1..], t) else 0
    ensures UpTo(times, t) == |times| <==> times[|times| - 1] <= t
  {
    if |times| > 1 {
      UpToFirst(times[..|times| - 1], t);
      assert times[1..][..|times| - 2] == times[..|times| - 1][1..];
    } else {
      assert times[..0] == [];
    }
  }

  /** A frame time just beyond the last segment, which the integrator accepts, gets no pose. */
  lemma {:induction false} LateFramesAreMissed<P(!new), K(!new)>(motion: Motion<P, K>, pose: P, t: real,
                                                                 segments: seq<Segment<K>>, times: seq<real>, a: real,
                                                                 b: real)
    requires Covering(segments, a, b) && Increasing(times) && times != []
    ensures |Walk(motion, pose, t, segments, times).0| == UpTo(times, b)
    ensures |Walk(motion, pose, t, segments, times).0| == |times| <==> times[|times| - 1] <= b
    decreases |segments|, |times|
  {
    UpToFirst(times, b);
    var first := segments[0];
    if times[0] <= first.end {
      CoveringEnds(segments, a, b);
      if |times| > 1 {
        LateFramesAreMissed(motion, Moved(motion, pose, first.keys, times[0] - t), times[0], segments, times[1..], a,
                            b);
      } else {
        WalkNothing(motion, Moved(motion, pose, first.keys, times[0] - t), times[0], segments);
      }
    } else if |segments| > 1 {
      CoveringTail(segments, a, b);
      if first.end > t {
        LateFramesAreMissed(motion, Moved(motion, pose, first.keys, first.end - t), first.end, segments[1..], times,
                            first.end, b);
      } else {
        LateFramesAreMissed(motion, pose, t, segments[1..], times, first.end, b);
      }
    }
  }

  lemma {:induction false} WalkNothing<P(!new), K(!new)>(motion: Motion<P, K>, pose: P, t: real,
                                                         segments: seq<Segment<K>>)
    ensures Walk(motion, pose, t, segments, []).0 == []
    decreases |segments|
  {
    if segments != [] {
      if segments[0].end > t {
        WalkNothing(motion, Moved(motion, pose, segments[0].keys, segments[0].end - t), segments[0].end, segments[1..]);
      } else {
        WalkNothing(motion, pose, t, segments[1..]);
      }
    }
  }

  lemma {:induction false} CoveringTail<K>(segments: seq<Segment<K>>, a: real, b: real)
    requires Covering(segments, a, b) && |segments| > 1
    ensures Covering(segments[1..], segments[0].end, b)
  {
  }

  lemma {:induction false} CoveringEnds<K(!new)>(segments: seq<Segment<K>>, a: real, b: real)
    requires Covering(segments, a, b)
    ensures segments[0].end <= b
    decreases |segments|
  {
    if |segments| > 1 {
      CoveringTail(segments, a, b);
      CoveringEnds(segments[1..], segments[0].end, b);
    }
  }

  /** Time within `[a, b]` that the segments spend on keys of interest. */
  ghost function HeldTime<K>(segments: seq<Segment<K>>, wanted: K -> bool, a: real, b: real): real {
    if segments == [] then 0.0
    else
      (if wanted(segments[0].keys) then Max(0.0, Min(segments[0].end, b) - Max(segments[0].start, a)) else 0.0)
      + HeldTime(segments[1..], wanted, a, b)
  }

  /** A motion that only counts the time spent on keys of interest. */
  function Stopwatch<K>(wanted: K -> bool): Motion<real, K> {
    (p: real, keys: K, duration: real) => if wanted(keys) then p + duration else p
  }

  lemma {:induction false} HeldTimeNone<K(!new)>(segments: seq<Segment<K>>, wanted: K -> bool, a: real, b: real)
    requires forall i :: 0 <= i < |segments| ==> segments[i].start >= b
    ensures HeldTime(segments, wanted, a, b) == 0.0
  {
    if segments != [] {
      HeldTimeNone(segments[1..], wanted, a, b);
    }
  }

  lemma {:induction false} CoveringStarts<K>(segments: seq<Segment<K>>, a: real, b: real, i: nat)
    requires Covering(segments, a, b) && i < |segments|
    ensures segments[i].start >= a
    ensures i > 0 ==> segments[i].start >= segments[0].end
  {
    if i > 1 {
      CoveringStarts(segments, a, b, i - 1);
    }
  }

  lemma {:induction false} HeldTimeSplit<K(!new)>(segments: seq<Segment<K>>, wanted: K -> bool, a: real, m: real,
                                                  b: real)
    requires a <= m <= b && forall i :: 0 <= i < |segments| ==> segments[i].start <= segments[i].end
    ensures HeldTime(segments, wanted, a, b) == HeldTime(segments, wanted, a, m) + HeldTime(segments, wanted, m, b)
  {
    if segments != [] {
      HeldTimeSplit(segments[1..], wanted, a, m, b);
    }
  }

  /** Once a segment has ended it holds no more time. */
  lemma {:induction false} HeldTimePast<K>(segments: seq<Segment<K>>, wanted: K -> bool, a: real, b: real)
    requires segments != [] && segments[0].end <= a
    ensures HeldTime(segments, wanted, a, b) == HeldTime(segments[1..], wanted, a, b)
  {
  }

  /** Within the first segment only its own keys count. */
  lemma {:induction false} HeldTimeFirst<K(!new)>(segments: seq<Segment<K>>, wanted: K -> bool, a: real, end: real,
                                                  t: real, b: real)
    requires Covering(segments, a, end) && a <= t <= b <= segments[0].end
    ensures HeldTime(segments, wanted, t, b) == if wanted(segments[0].keys) then b - t else 0.0
  {
    forall i | 0 <= i < |segments[1..]| ensures segments[1..][i].start >= b {
      CoveringStarts(segments, a, end, i + 1);
    }
    HeldTimeNone(segments[1..], wanted, t, b);
  }

  /**
   * Every pose has been moved for exactly the time its keys were held: for any set of keys, the time spent on them up
   * to a frame is the overlap of their segments with the interval from the start to that frame.
   */
  lemma {:induction false} WalkKeepsTime<K(!new)>(wanted: K -> bool, pose: real, t: real, segments: seq<Segment<K>>,
                                                  times: seq<real>, a: real, end: real)
    requires Covering(segments, a, end) && a <= t <= segments[0].end
    requires Increasing(times) && (times != [] ==> t <= times[0] && times[|times| - 1] <= end)
    ensures var poses := Walk(Stopwatch(wanted), pose, t, segments, times).0;
            && |poses| == |times|
            && forall j :: 0 <= j < |times| ==> poses[j] == pose + HeldTime(segments, wanted, t, times[j])
    decreases |segments|, |times|
  {
    var motion := Stopwatch(wanted);
    WalkCounts(motion, pose, t, segments, times);
    var poses := Walk(motion, pose, t, segments, times).0;
    if times == [] {
    } else if times[0] <= segments[0].end {
      var p := Moved(motion, pose, segments[0].keys, times[0] - t);
      HeldTimeFirst(segments, wanted, a, end, t, times[0]);
      WalkKeepsTime(wanted, p, times[0], segments, times[1..], a, end);
      forall j | 0 <= j < |times| ensures poses[j] == pose + HeldTime(segments, wanted, t, times[j]) {
        if j > 0 {
          assert poses[j] == Walk(motion, p, times[0], segments, times[1..]).0[j - 1];
          HeldTimeSplit(segments, wanted, t, times[0], times[j]);
        }
      }
    } else {
      var next := segments[0].end;
      assert |segments| > 1;
      CoveringTail(segments, a, end);
      var p := Moved(motion, pose, segments[0].keys, next - t);
      assert poses == Walk(motion, p, next, segments[1..], times).0;
      WalkKeepsTime(wanted, p, next, segments[1..], times, next, end);
      HeldTimeFirst(segments, wanted, a, end, t, next);
      forall j | 0 <= j < |times| ensures poses[j] == pose + HeldTime(segments, wanted, t, times[j]) {
        HeldTimeSplit(segments, wanted, t, next, times[j]);
        HeldTimePast(segments, wanted, next, times[j]);
      }
    }
  }

  /** How far outside its window a frame time may lie. */
  const NEAR: real := 0.000000001

  /** A chunk the integrator takes: frame times in order, and none outside the window by more than a hair. */
  predicate Accepted<K>(segments: seq<Segment<K>>, times: seq<real>) {
    && segments != [] && times != []
    && !(exists i :: 0 <= i < |times| - 1 && times[i] >= times[i + 1])
    && times[0] >= segments[0].start - NEAR && times[|times| - 1] <= segments[|segments| - 1].end + NEAR
  }

  /**
   * A chunk is accepted when it has segments and frames, in order of time and all within them but for the tolerance.
   */
  lemma {:induction false} AcceptedIs<K>(segments: seq<Segment<K>>, times: seq<real>)
    ensures Accepted(segments, times) <==>
            && segments != [] && times != []
            && (forall i, j :: 0 <= i < j < |times| ==> times[i] < times[j])
            && forall i :: 0 <= i < |times| ==>
                 segments[0].start - 0.000000001 <= times[i] <= segments[|segments| - 1].end + 0.000000001
  {
    if Accepted(segments, times) {
      forall i, j | 0 <= i < j < |times| ensures times[i] < times[j] {
        OrderedSteps(times, i, j);
      }
    }
  }

  lemma {:induction false} OrderedSteps(times: seq<real>, i: nat, j: nat)
    requires i < j < |times| && !(exists i :: 0 <= i < |times| - 1 && times[i] >= times[i + 1])
    ensures times[i] < times[j]
    decreases j - i
  {
    assert times[j - 1] < times[j] by {
      assert !(times[j - 1] >= times[j - 1 + 1]);
    }
    if i < j - 1 {
      OrderedSteps(times, i, j - 1);
    }
  }

  /** An accepted chunk yields a pose for every frame exactly when its last frame is not beyond the last segment. */
  lemma {:induction false} AcceptedChunkPoses<P(!new), K(!new)>(motion: Motion<P, K>, pose: P,
                                                                segments: seq<Segment<K>>, times: seq<real>, a: real,
                                                                b: real)
    requires Accepted(segments, times) && Covering(segments, a, b)
    ensures |Walk(motion, pose, a, segments, times).0| == |times| <==> times[|times| - 1] <= b
  {
    forall i, j | 0 <= i < j < |times| ensures times[i] < times[j] {
      OrderedSteps(times, i, j);
    }
    LateFramesAreMissed(motion, pose, a, segments, times, a, b);
  }

  /** Half a nanosecond is enough: the second of two frames gets no pose, and a frame on its own leaves none at all. */
  lemma {:induction false} LateFrameWithoutPose<P(!new), K(!new)>(motion: Motion<P, K>, pose: P, keys: K)
    ensures var segments := [Segment(0.0, 1.0, keys)];
            && Accepted(segments, [0.5, 1.0000000005]) && Accepted(segments, [1.0000000005])
            && |Walk(motion, pose, 0.0, segments, [0.5, 1.0000000005]).0| == 1
            && Walk(motion, pose, 0.0, segments, [1.0000000005]).0 == []
  {
    var segments := [Segment(0.0, 1.0, keys)];
    assert Covering(segments, 0.0, 1.0);
    LateFramesAreMissed(motion, pose, 0.0, segments, [0.5, 1.0000000005], 0.0, 1.0);
    LateFramesAreMissed(motion, pose, 0.0, segments, [1.0000000005], 0.0, 1.0);
    UpToFirst([0.5, 1.0000000005], 1.0);
    UpToFirst([1.0000000005], 1.0);
    assert [0.5, 1.0000000005][1..] == [1.0000000005];
  }

  /** A good window is always accepted, with a pose for every frame. */
  lemma {:induction false} GoodIsAccepted<P(!new), K(!new)>(motion: Motion<P, K>, pose: P, segments: seq<Segment<K>>,
                                                            times: seq<real>, a: real, b: real)
    requires Covering(segments, a, b) && Increasing(times) && times != []
    requires times[0] >= a && times[|times| - 1] <= b
    ensures Accepted(segments, times) && |Walk(motion, pose, a, segments, times).0| == |times|
  {
    WalkCounts(motion, pose, a, segments, times);
  }

  /** Either the chunk is not accepted, or no frame of it got a pose and there is nothing to stack. */
  datatype ChunkError = BadChunk | NoPoses

  class CameraPoseIntegrator<P, K> {
    const motion: Motion<P, K>
    const identity: P
    var current: P

    constructor (motion: Motion<P, K>, identity: P)
      ensures current == identity && this.motion == motion && this.identity == identity
    {
      this.motion, this.identity, current := motion, identity, identity;
    }

    method Reset(pose: Option<P>)
      modifies this
      ensures current == if pose.Some? then pose.value else identity
    {
      current := if pose.Some? then pose.value else identity;
    }

    method Advance(keys: K, duration: real)
      modifies this
      ensures current == Moved(motion, old(current), keys, duration)
    {
      if duration > 0.0 {
        current := motion(current, keys, duration);
      }
    }

    /**
     * Poses for one chunk. A chunk that is not accepted is an error that moves nothing; one whose frames all lie beyond
     * its segments is an error after the camera has moved.
     */
    method IntegrateChunk(segments: seq<Segment<K>>, times: seq<real>) returns (r: Result<seq<P>, ChunkError>)
      modifies this
      ensures !Accepted(segments, times) ==> r == Err(BadChunk) && current == old(current)
      ensures Accepted(segments, times) ==>
                var (poses, last) := Walk(motion, old(current), segments[0].start, segments, times);
                current == last && r == if poses == [] then Err(NoPoses) else Ok(poses)
    {
      if !Accepted(segments, times) {
        return Err(BadChunk);
      }
      var poses := WalkChunk(segments, times);
      r := if poses == [] then Err(NoPoses) else Ok(poses);
    }

    /** Both loops keep the rest of the walk equal to what remains to be done. */
    method WalkChunk(segments: seq<Segment<K>>, times: seq<real>) returns (poses: seq<P>)
      requires segments != []
      modifies this
      ensures (poses, current) == Walk(motion, old(current), segments[0].start, segments, times)
    {
      poses := [];
      var t := segments[0].start;
      var frame := 0;
      ghost var whole := Walk(motion, current, t, segments, times);
      assert segments[0..] == segments && times[0..] == times && [] + whole.0 == whole.0;
      for i := 0 to |segments|
        invariant 0 <= frame <= |times|
        invariant var rest := Walk(motion, current, t, segments[i..], times[frame..]);
                  whole == (poses + rest.0, rest.1)
      {
        var segment := segments[i];
        while frame < |times| && times[frame] <= segment.end
          invariant 0 <= frame <= |times|
          invariant var rest := Walk(motion, current, t, segments[i..], times[frame..]);
                    whole == (poses + rest.0, rest.1)
          decreases |times| - frame
        {
          ghost var rest := Walk(motion, current, t, segments[i..], times[frame..]);
          Advance(segment.keys, times[frame] - t);
          t := times[frame];
          assert times[frame..][1..] == times[frame + 1..];
          ghost var more := Walk(motion, current, t, segments[i..], times[frame + 1..]);
          assert rest == ([current] + more.0, more.1);
          assert poses + rest.0 == poses + [current] + more.0;
          poses := poses + [current];
          frame := frame + 1;
        }
        assert segments[i..][1..] == segments[i + 1..];
        if segment.end > t {
          Advance(segment.keys, segment.end - t);
          t := segment.end;
        }
      }
      assert segments[|segments|..] == [];
      assert poses + [] == poses;
    }
  }

  // ---------- trimming a window to its live part ----------

  function Trimmed<K>(segments: seq<Segment<K>>, start: real): seq<Segment<K>> {
    if segments == [] then []
    else if segments[0].end > start then
      [Segment(Max(segments[0].start, start), segments[0].end, segments[0].keys)] + Trimmed(segments[1..], start)
    else Trimmed(segments[1..], start)
  }

  lemma {:induction false} TrimmedLater<K(!new)>(segments: seq<Segment<K>>, a: real, b: real, start: real)
    requires Covering(segments, a, b) && start <= a
    ensures Trimmed(segments, start) == segments
  {
    assert Segment(Max(segments[0].start, start), segments[0].end, segments[0].keys) == segments[0];
    if |segments| > 1 {
      CoveringTail(segments, a, b);
      TrimmedLater(segments[1..], segments[0].end, b, start);
      assert segments == [segments[0]] + segments[1..];
    } else {
      assert segments == [segments[0]];
    }
  }

  lemma {:induction false} CoveringCons<K(!new)>(first: Segment<K>, rest: seq<Segment<K>>, b: real)
    requires first.start < first.end && Covering(rest, first.end, b)
    ensures Covering([first] + rest, first.start, b)
  {
    var all := [first] + rest;
    forall i, j | 0 <= i < j < |all| && j == i + 1 ensures all[i].end == all[j].start {
      if i > 0 {
        assert all[i] == rest[i - 1] && all[j] == rest[i];
      }
    }
  }

  /** Trimming at a time before the window's end leaves segments that run exactly from there to the end. */
  lemma {:induction false} TrimmedCovers<K(!new)>(segments: seq<Segment<K>>, a: real, b: real, start: real)
    requires Covering(segments, a, b) && a <= start < b
    ensures Covering(Trimmed(segments, start), start, b)
    decreases |segments|
  {
    if segments[0].end > start {
      var first := Segment(start, segments[0].end, segments[0].keys);
      if |segments| > 1 {
        CoveringTail(segments, a, b);
        TrimmedLater(segments[1..], segments[0].end, b, start);
        CoveringCons(first, segments[1..], b);
      } else {
        assert Trimmed(segments, start) == [first];
      }
    } else {
      assert |segments| > 1;
      CoveringTail(segments, a, b);
      TrimmedCovers(segments[1..], segments[0].end, b, start);
    }
  }

  // ---------- sample_camera_poses ----------

  /** The replay not yet finished, frames generated so far, and the integrator's pose. */
  datatype Camera<P> = Camera(replay: Option<seq<P>>, frames: nat, pose: P)

  /** Cutting at a time changes nothing about which keys are held when from there on. */
  lemma {:induction false} TrimmedHolds<K(!new)>(segments: seq<Segment<K>>, start: real, wanted: K -> bool, a: real,
                                                 b: real)
    requires start <= a
    ensures HeldTime(Trimmed(segments, start), wanted, a, b) == HeldTime(segments, wanted, a, b)
  {
    if segments != [] {
      TrimmedHolds(segments[1..], start, wanted, a, b);
      var first, rest := segments[0], Trimmed(segments[1..], start);
      if first.end > start {
        var cut := Segment(Max(first.start, start), first.end, first.keys);
        assert ([cut] + rest)[1..] == rest;
      }
    }
  }

  /**
   * After a hand-off the live poses have been moved, for any set of keys, for exactly the time those keys were held
   * since the last recorded frame of the window, or since its start when it had none.
   */
  lemma {:induction false} HandOffKeepsTime<K(!new)>(wanted: K -> bool, pose: real, input: Input<K>, n: nat)
    requires Good(input) && n < |input.samples|
    ensures var poses := LiveWalk(Stopwatch(wanted), pose, Trimmed(input.segments, LiveStart(input, n)),
                                  input.samples[n..]).0;
            var since := if n == 0 then input.start else input.samples[n - 1];
            && |poses| == |input.samples| - n
            && forall j :: 0 <= j < |poses| ==>
                 poses[j] == pose + HeldTime(input.segments, wanted, since, input.samples[n + j])
  {
    var start, times := LiveStart(input, n), input.samples[n..];
    var live := Trimmed(input.segments, start);
    assert n > 0 ==> input.samples[n - 1] < input.samples[n] <= input.samples[|input.samples| - 1];
    assert n > 0 ==> input.samples[0] <= input.samples[n - 1];
    assert n == 0 ==> start == input.start < input.samples[0];
    TrimmedCovers(input.segments, input.start, input.end, start);
    CoveringStart(live, start, input.end);
    WalkKeepsTime(wanted, pose, start, live, times, start, input.end);
    forall j | 0 <= j < |times|
      ensures HeldTime(live, wanted, start, times[j]) == HeldTime(input.segments, wanted, start, input.samples[n + j])
    {
      TrimmedHolds(input.segments, start, wanted, start, times[j]);
    }
  }

  lemma {:induction false} CoveringStart<K(!new)>(segments: seq<Segment<K>>, a: real, b: real)
    requires Covering(segments, a, b)
    ensures segments[0].start == a <= segments[0].end
  {
  }


  function Least(a: nat, b: nat): nat { if a <= b then a else b }

  /** Frames of this window the replay still owns. */
  function ReplayCount<K>(length: nat, frames: nat, input: Input<K>): (n: nat)
    ensures n <= |input.samples| && (frames < length ==> frames + n <= length)
  {
    var left := Least(|input.samples|, if length > frames then length - frames else 0);
    if input.takeover.Some? then Least(left, UpTo(input.samples, input.takeover.value)) else left
  }

  /** The last pose shown after `shown` poses of the replay; its first one when none has been. */
  function SeedPose<P>(replay: seq<P>, shown: nat): P
    requires replay != [] && shown <= |replay|
  {
    replay[if shown > 0 then shown - 1 else 0]
  }

  /** When live control begins in a window whose first `n` frames are not its own. */
  function LiveStart<K>(input: Input<K>, n: nat): real
    requires n <= |input.samples|
  {
    if n > 0 then input.samples[n - 1] else input.start
  }

  /** Live poses from `pose` over some segments, none when no segment is left. */
  function LiveWalk<P, K>(motion: Motion<P, K>, pose: P, segments: seq<Segment<K>>, times: seq<real>): (seq<P>, P) {
    if segments == [] then ([], pose) else Walk(motion, pose, segments[0].start, segments, times)
  }

  /** What live control makes of some segments and frame times, from a pose. */
  type Live<!P, !K> = (P, seq<Segment<K>>, seq<real>) -> (seq<P>, P)

  /** Live control as the integrator performs it. */
  function Control<P, K>(motion: Motion<P, K>): Live<P, K> {
    (pose: P, segments: seq<Segment<K>>, times: seq<real>) => LiveWalk(motion, pose, segments, times)
  }

  /** One model step of the camera. */
  function Sampled<P, K>(live: Live<P, K>, c: Camera<P>, input: Input<K>): (Camera<P>, seq<P>)
    requires c.replay.Some? ==> c.frames < |c.replay.value|
  {
    var frames := c.frames + |input.samples|;
    if c.replay.None? then
      var (poses, last) := live(c.pose, input.segments, input.samples);
      (Camera(None, frames, last), poses)
    else
      var replay := c.replay.value;
      var n := ReplayCount(|replay|, c.frames, input);
      var chunk := replay[c.frames..c.frames + n];
      if n == |input.samples| then
        if n > 0 && (c.frames + n == |replay| || input.takeover.Some?) then (Camera(None, frames, chunk[n - 1]), chunk)
        else (Camera(c.replay, frames, c.pose), chunk)
      else
        var (poses, last) := live(SeedPose(replay, c.frames + n),
                                      Trimmed(input.segments, LiveStart(input, n)), input.samples[n..]);
        (Camera(None, frames, last), chunk + poses)
  }

  /** A camera between steps: a replay still running has poses left. */
  ghost predicate Steady<P>(c: Camera<P>) {
    c.replay.Some? ==> c.frames < |c.replay.value|
  }

  ghost predicate AllGood<K>(inputs: seq<Input<K>>) {
    forall i :: 0 <= i < |inputs| ==> Good(inputs[i])
  }

  lemma {:induction false} SampledSteady<P, K>(live: Live<P, K>, c: Camera<P>, input: Input<K>)
    requires Steady(c) && input.samples != []
    ensures Steady(Sampled(live, c, input).0)
  {
  }

  // Between rollouts, equations of pose lists are stated as equations of pairs: those are equations of two values,
  // which the verifier does not take apart element by element.

  /** A whole rollout: every step's poses in order. Between steps a camera is always steady. */
  ghost function Rollout<P(!new), K(!new)>(live: Live<P, K>, c: Camera<P>, inputs: seq<Input<K>>): (Camera<P>, seq<P>)
    decreases |inputs|
  {
    if inputs == [] || !Steady(c) then (c, [])
    else
      var (d, poses) := Sampled(live, c, inputs[0]);
      var (e, rest) := Rollout(live, d, inputs[1..]);
      (e, poses + rest)
  }

  /** So a rollout goes through all its windows, step by step. */
  lemma {:induction false} RolloutStep<P(!new), K(!new)>(live: Live<P, K>, c: Camera<P>, inputs: seq<Input<K>>)
    requires Steady(c) && inputs != []
    ensures var (d, poses) := Sampled(live, c, inputs[0]);
            (Rollout(live, c, inputs).1, d) == (poses + Rollout(live, d, inputs[1..]).1, d)
  {
  }

  // ---------- the reference: where control passes over, and what live control yields ----------

  function FrameCount<K>(inputs: seq<Input<K>>): nat {
    if inputs == [] then 0 else |inputs[0].samples| + FrameCount(inputs[1..])
  }

  /** Frames the replay shows in all, of `left` remaining: until it ends, or until the first key press. */
  function HandOff<K>(left: nat, inputs: seq<Input<K>>): (h: nat)
    ensures h <= left
  {
    if inputs == [] then left
    else if inputs[0].takeover.Some? then Least(left, UpTo(inputs[0].samples, inputs[0].takeover.value))
    else if left <= |inputs[0].samples| then left
    else |inputs[0].samples| + HandOff(left - |inputs[0].samples|, inputs[1..])
  }

  /** The windows as live control sees them once the first `h` frames have been shown. */
  function LiveInputs<K>(h: nat, inputs: seq<Input<K>>): seq<Input<K>> {
    if inputs == [] then []
    else if h >= |inputs[0].samples| then LiveInputs(h - |inputs[0].samples|, inputs[1..])
    else
      var start := LiveStart(inputs[0], h);
      [Input(start, inputs[0].end, inputs[0].samples[h..], Trimmed(inputs[0].segments, start), None)] + inputs[1..]
  }

  /** Poses of live control over a list of windows. */
  function LiveRun<P, K>(live: Live<P, K>, pose: P, inputs: seq<Input<K>>): seq<P> {
    if inputs == [] then []
    else
      var (poses, last) := live(pose, inputs[0].segments, inputs[0].samples);
      poses + LiveRun(live, last, inputs[1..])
  }

  lemma {:induction false} LiveRolls<P(!new), K(!new)>(live: Live<P, K>, c: Camera<P>, inputs: seq<Input<K>>)
    requires c.replay.None?
    ensures Rollout(live, c, inputs).1 == LiveRun(live, c.pose, inputs)
    ensures Rollout(live, c, inputs).0.replay.None?
    decreases |inputs|
  {
    if inputs != [] {
      LiveRolls(live, Sampled(live, c, inputs[0]).0, inputs[1..]);
    }
  }

  /** Nothing shown yet leaves every window whole. */
  lemma {:induction false} LiveFromStart<P(!new), K(!new)>(live: Live<P, K>, pose: P, inputs: seq<Input<K>>)
    requires AllGood(inputs)
    ensures LiveRun(live, pose, LiveInputs(0, inputs)) == LiveRun(live, pose, inputs)
  {
    if inputs != [] {
      var input := inputs[0];
      assert Good(input);
      TrimmedLater(input.segments, input.start, input.end, input.start);
      assert input.samples[0..] == input.samples;
      var live := LiveInputs(0, inputs);
      assert live[1..] == inputs[1..];
    }
  }

  /** At most `h` poses of the replay from `a` on, fewer if the rollout is shorter, and then live ones. */
  function ThenLive<P>(replay: seq<P>, a: nat, h: nat, count: nat, live: seq<P>): seq<P>
    requires a + h <= |replay|
  {
    replay[a..a + Least(h, count)] + live
  }

  /** What the camera shows from a point in the replay on. */
  ghost function Expected<P(!new), K(!new)>(live: Live<P, K>, replay: seq<P>, frames: nat,
                                            inputs: seq<Input<K>>): seq<P>
    requires frames < |replay|
  {
    var h := HandOff(|replay| - frames, inputs);
    ThenLive(replay, frames, h, FrameCount(inputs), LiveRun(live, SeedPose(replay, frames + h), LiveInputs(h, inputs)))
  }

  /** Two adjoining stretches of the replay, followed by anything. */
  lemma {:induction false} Stretches<P>(replay: seq<P>, a: nat, n: nat, h: nat, count: nat, live: seq<P>)
    requires a + n + h <= |replay|
    ensures ThenLive(replay, a, n + h, n + count, live) == replay[a..a + n] + ThenLive(replay, a + n, h, count, live)
  {
    var m := Least(h, count);
    assert Least(n + h, n + count) == n + m;
    assert replay[a..a + (n + m)] == replay[a..a + n] + replay[a + n..a + n + m];
  }

  lemma {:induction false} GoesOnBy<K(!new)>(left: nat, inputs: seq<Input<K>>)
    requires inputs != [] && inputs[0].takeover.None? && left > |inputs[0].samples|
    ensures HandOff(left, inputs) == |inputs[0].samples| + HandOff(left - |inputs[0].samples|, inputs[1..])
    ensures FrameCount(inputs) == |inputs[0].samples| + FrameCount(inputs[1..])
  {
  }

  lemma {:induction false} LiveAfter<K(!new)>(h: nat, inputs: seq<Input<K>>)
    requires inputs != []
    ensures LiveInputs(|inputs[0].samples| + h, inputs) == LiveInputs(h, inputs[1..])
  {
  }

  /** The replay owns the whole window and goes on: what is expected keeps its hand-off and its live part. */
  lemma {:induction false} ExpectedLater<P(!new), K(!new)>(live: Live<P, K>, replay: seq<P>, frames: nat,
                                                           inputs: seq<Input<K>>)
    requires frames < |replay| && inputs != []
    requires inputs[0].takeover.None? && frames + |inputs[0].samples| < |replay|
    ensures var n := |inputs[0].samples|;
            var h := HandOff(|replay| - frames - n, inputs[1..]);
            var tail := LiveRun(live, SeedPose(replay, frames + n + h), LiveInputs(h, inputs[1..]));
            (Expected(live, replay, frames, inputs), n)
              == (ThenLive(replay, frames, n + h, n + FrameCount(inputs[1..]), tail), n)
  {
    var n := |inputs[0].samples|;
    GoesOnBy(|replay| - frames, inputs);
    LiveAfter(HandOff(|replay| - frames - n, inputs[1..]), inputs);
  }

  /** The replay ends, or gives way, exactly with this window. */
  lemma {:induction false} StepFinishes<P(!new), K(!new)>(live: Live<P, K>, replay: seq<P>, frames: nat,
                                                          inputs: seq<Input<K>>)
    requires frames < |replay| && inputs != [] && AllGood(inputs)
    requires HandOff(|replay| - frames, inputs) == |inputs[0].samples|
    ensures var n := |inputs[0].samples|;
            && frames + n <= |replay|
            && Expected(live, replay, frames, inputs)
               == replay[frames..frames + n] + LiveRun(live, replay[frames + n - 1], inputs[1..])
  {
    assert Good(inputs[0]);
    LiveFromStart(live, replay[frames + |inputs[0].samples| - 1], inputs[1..]);
  }

  /** The first of several live windows. */
  lemma {:induction false} LiveRunCons<P(!new), K(!new)>(live: Live<P, K>, pose: P, first: Input<K>,
                                                         rest: seq<Input<K>>)
    ensures var (poses, last) := live(pose, first.segments, first.samples);
            LiveRun(live, pose, [first] + rest) == poses + LiveRun(live, last, rest)
  {
    assert ([first] + rest)[1..] == rest;
  }

  /** A window in which control passes over after `h` frames. */
  lemma {:induction false} LiveInputsCons<K(!new)>(h: nat, inputs: seq<Input<K>>)
    requires inputs != [] && h < |inputs[0].samples|
    ensures var start := LiveStart(inputs[0], h);
            LiveInputs(h, inputs)
            == [Input(start, inputs[0].end, inputs[0].samples[h..], Trimmed(inputs[0].segments, start), None)]
              + inputs[1..]
    ensures Least(h, FrameCount(inputs)) == h
  {
  }

  /** Control passes over inside the window. */
  lemma {:induction false} ExpectedSplits<P(!new), K(!new)>(live: Live<P, K>, replay: seq<P>, frames: nat,
                                                            inputs: seq<Input<K>>, h: nat)
    requires frames < |replay| && inputs != [] && h == HandOff(|replay| - frames, inputs) < |inputs[0].samples|
    ensures var (poses, last) := live(SeedPose(replay, frames + h),
                                          Trimmed(inputs[0].segments, LiveStart(inputs[0], h)), inputs[0].samples[h..]);
            (Expected(live, replay, frames, inputs), h)
              == (replay[frames..frames + h] + poses + LiveRun(live, last, inputs[1..]), h)
  {
    var input, seed := inputs[0], SeedPose(replay, frames + h);
    var start := LiveStart(input, h);
    var first := Input(start, input.end, input.samples[h..], Trimmed(input.segments, start), None);
    LiveInputsCons(h, inputs);
    LiveRunCons(live, seed, first, inputs[1..]);
    var (poses, last) := live(seed, first.segments, first.samples);
    Associative(replay[frames..frames + h], poses, LiveRun(live, last, inputs[1..]));
  }

  lemma {:induction false} StepSplits<P(!new), K(!new)>(live: Live<P, K>, c: Camera<P>, inputs: seq<Input<K>>)
    requires c.replay.Some? && Steady(c) && inputs != []
    requires HandOff(|c.replay.value| - c.frames, inputs) < |inputs[0].samples|
    requires ReplayCount(|c.replay.value|, c.frames, inputs[0]) == HandOff(|c.replay.value| - c.frames, inputs)
    ensures var (d, poses) := Sampled(live, c, inputs[0]);
            && d.replay.None?
            && (Expected(live, c.replay.value, c.frames, inputs), d) == (poses + LiveRun(live, d.pose, inputs[1..]), d)
  {
    ExpectedSplits(live, c.replay.value, c.frames, inputs, HandOff(|c.replay.value| - c.frames, inputs));
  }

  lemma {:induction false} Associative<P>(a: seq<P>, b: seq<P>, c: seq<P>)
    ensures a + (b + c) == a + b + c
  {
  }

  /** Within a window the replay keeps exactly the frames before the hand-off. */
  lemma {:induction false} CountIsHandOff<K(!new)>(left: nat, inputs: seq<Input<K>>)
    requires inputs != [] && left > 0
    requires inputs[0].takeover.Some? || left <= |inputs[0].samples|
    ensures HandOff(left, inputs) == ReplayCount(left, 0, inputs[0])
  {
  }

  lemma {:induction false} CountShifts<K(!new)>(length: nat, frames: nat, input: Input<K>)
    requires frames < length
    ensures ReplayCount(length, frames, input) == ReplayCount(length - frames, 0, input)
  {
  }

  /** The step in which control passes over, at its end or inside it. */
  lemma {:induction false} StepHandsOver<P(!new), K(!new)>(live: Live<P, K>, c: Camera<P>, inputs: seq<Input<K>>)
    requires c.replay.Some? && Steady(c) && inputs != [] && AllGood(inputs)
    requires inputs[0].takeover.Some? || |c.replay.value| - c.frames <= |inputs[0].samples|
    ensures var (d, poses) := Sampled(live, c, inputs[0]);
            && d.replay.None?
            && (Expected(live, c.replay.value, c.frames, inputs), d) == (poses + LiveRun(live, d.pose, inputs[1..]), d)
  {
    var left := |c.replay.value| - c.frames;
    CountShifts(|c.replay.value|, c.frames, inputs[0]);
    CountIsHandOff(left, inputs);
    assert Good(inputs[0]);
    if HandOff(left, inputs) == |inputs[0].samples| {
      StepFinishes(live, c.replay.value, c.frames, inputs);
    } else {
      StepSplits(live, c, inputs);
    }
  }

  /** A step that the replay outlasts shows its next poses and nothing else. */
  lemma {:induction false} StepGoesOn<P(!new), K(!new)>(live: Live<P, K>, c: Camera<P>, input: Input<K>)
    requires c.replay.Some? && Steady(c)
    requires input.takeover.None? && |c.replay.value| - c.frames > |input.samples|
    ensures var n := |input.samples|;
            Sampled(live, c, input) == (Camera(c.replay, c.frames + n, c.pose), c.replay.value[c.frames..c.frames + n])
  {
  }

  lemma {:induction false} RolloutGoesOn<P(!new), K(!new)>(live: Live<P, K>, c: Camera<P>, inputs: seq<Input<K>>)
    requires c.replay.Some? && Steady(c) && inputs != []
    requires inputs[0].takeover.None? && |c.replay.value| - c.frames > |inputs[0].samples|
    ensures var n := |inputs[0].samples|;
            var d := Camera(c.replay, c.frames + n, c.pose);
            (Rollout(live, c, inputs).1, n)
              == (c.replay.value[c.frames..c.frames + n] + Rollout(live, d, inputs[1..]).1, n)
  {
    RolloutStep(live, c, inputs);
    StepGoesOn(live, c, inputs[0]);
  }

  /** Poses that begin with a stretch of the replay, and go on with more of it and live ones. */
  lemma {:induction false} ShownContinues<P>(whole: seq<P>, later: seq<P>, replay: seq<P>, a: nat, n: nat, h: nat,
                                             count: nat, live: seq<P>)
    requires a + n + h <= |replay|
    requires (whole, n) == (replay[a..a + n] + later, n) && (later, n) == (ThenLive(replay, a + n, h, count, live), n)
    ensures (whole, n) == (ThenLive(replay, a, n + h, n + count, live), n)
  {
    Stretches(replay, a, n, h, count, live);
  }

  /** A window that the replay outlasts, followed by what is expected after it, is what is expected. */
  lemma {:induction false} ContinuesAsExpected<P(!new), K(!new)>(live: Live<P, K>, replay: seq<P>, frames: nat,
                                                                 inputs: seq<Input<K>>, n: nat, whole: seq<P>,
                                                                 later: seq<P>)
    requires frames < |replay| && inputs != [] && n == |inputs[0].samples|
    requires inputs[0].takeover.None? && frames + n < |replay|
    requires (whole, n) == (replay[frames..frames + n] + later, n)
    requires (later, n) == (Expected(live, replay, frames + n, inputs[1..]), n)
    ensures (whole, n) == (Expected(live, replay, frames, inputs), n)
  {
    var h := HandOff(|replay| - frames - n, inputs[1..]);
    var tail := LiveRun(live, SeedPose(replay, frames + n + h), LiveInputs(h, inputs[1..]));
    ExpectedLater(live, replay, frames, inputs);
    ShownContinues(whole, later, replay, frames, n, h, FrameCount(inputs[1..]), tail);
  }

  lemma {:induction false} ExpectedOfNothing<P(!new), K(!new)>(live: Live<P, K>, replay: seq<P>, frames: nat)
    requires frames < |replay|
    ensures Expected(live, replay, frames, []) == []
  {
  }

  lemma {:induction false} RolloutHandsOver<P(!new), K(!new)>(live: Live<P, K>, c: Camera<P>, inputs: seq<Input<K>>)
    requires c.replay.Some? && Steady(c) && AllGood(inputs) && inputs != []
    requires inputs[0].takeover.Some? || |c.replay.value| - c.frames <= |inputs[0].samples|
    ensures Rollout(live, c, inputs).1 == Expected(live, c.replay.value, c.frames, inputs)
  {
    RolloutStep(live, c, inputs);
    StepHandsOver(live, c, inputs);
    LiveRolls(live, Sampled(live, c, inputs[0]).0, inputs[1..]);
  }

  /**
   * Every rollout shows the recorded poses in order up to the hand-off, then only live poses continued from the last
   * one shown; control passes over once, when the recording ends or at the first key press.
   */
  lemma {:induction false} RolloutIsReplayThenLive<P(!new), K(!new)>(live: Live<P, K>, c: Camera<P>,
                                                                     inputs: seq<Input<K>>)
    requires c.replay.Some? && Steady(c) && AllGood(inputs)
    ensures Rollout(live, c, inputs).1 == Expected(live, c.replay.value, c.frames, inputs)
    decreases |inputs|
  {
    if inputs == [] {
      ExpectedOfNothing(live, c.replay.value, c.frames);
    } else if inputs[0].takeover.None? && |c.replay.value| - c.frames > |inputs[0].samples| {
      var d := Camera(c.replay, c.frames + |inputs[0].samples|, c.pose);
      RolloutIsReplayThenLive(live, d, inputs[1..]);
      RolloutGoesOn(live, c, inputs);
      ContinuesAsExpected(live, c.replay.value, c.frames, inputs, |inputs[0].samples|,
                          Rollout(live, c, inputs).1, Rollout(live, d, inputs[1..]).1);
    } else {
      RolloutHandsOver(live, c, inputs);
    }
  }

  /** One live pose per frame after the first `n` of a window. */
  lemma {:induction false} LiveCounts<P(!new), K(!new)>(motion: Motion<P, K>, pose: P, input: Input<K>, n: nat)
    requires Good(input) && n < |input.samples|
    ensures |LiveWalk(motion, pose, Trimmed(input.segments, LiveStart(input, n)), input.samples[n..]).0|
            == |input.samples| - n
  {
    var start := LiveStart(input, n);
    assert start < input.samples[n] <= input.end;
    TrimmedCovers(input.segments, input.start, input.end, start);
    var live := Trimmed(input.segments, start);
    WalkCounts(motion, pose, live[0].start, live, input.samples[n..]);
  }

  /** Every step yields one pose per frame. */
  lemma {:induction false} SampledCounts<P(!new), K(!new)>(motion: Motion<P, K>, c: Camera<P>, input: Input<K>)
    requires Steady(c) && Good(input)
    ensures |Sampled(Control(motion), c, input).1| == |input.samples|
    ensures Sampled(Control(motion), c, input).0.frames == c.frames + |input.samples|
  {
    if c.replay.None? {
      WalkCounts(motion, c.pose, input.segments[0].start, input.segments, input.samples);
    } else {
      var n := ReplayCount(|c.replay.value|, c.frames, input);
      if n < |input.samples| {
        LiveCounts(motion, SeedPose(c.replay.value, c.frames + n), input, n);
      }
    }
  }

  // ---------- the model state ----------

  class Cam2VModelState<P(!new), K(!new)> {
    const trajectory: Option<seq<P>>
    const integrator: CameraPoseIntegrator<P, K>
    var replay: Option<seq<P>>
    var frames: nat

    ghost function View(): Camera<P>
      reads this, integrator
    {
      Camera(replay, frames, integrator.current)
    }

    constructor (trajectory: Option<seq<P>>, motion: Motion<P, K>, identity: P)
      ensures View() == Camera(this.trajectory, 0, integrator.identity) && fresh(integrator)
      ensures this.trajectory == trajectory && integrator.motion == motion
    {
      this.trajectory, replay, frames := trajectory, trajectory, 0;
      var made := new CameraPoseIntegrator(motion, identity);
      integrator := made;
    }

    method FinishReplay(pose: P)
      modifies this, integrator
      ensures View() == Camera(None, old(frames), pose)
    {
      integrator.Reset(Some(pose));
      replay := None;
    }

    /** Poses for one step; the frame counter moves once the step's frames exist. */
    method Step(input: Input<K>) returns (poses: seq<P>)
      requires Steady(View()) && Good(input)
      modifies this, integrator
      ensures (View(), poses) == Sampled(Control(integrator.motion), old(View()), input)
      ensures Steady(View()) && |poses| == |input.samples|
    {
      ghost var before := View();
      SampledCounts(integrator.motion, before, input);
      SampledSteady(Control(integrator.motion), before, input);
      poses := SamplePoses(input);
      frames := frames + |input.samples|;
    }

    method SamplePoses(input: Input<K>) returns (poses: seq<P>)
      requires Steady(View()) && Good(input)
      modifies this, integrator
      ensures frames == old(frames)
      ensures (View().(frames := frames + |input.samples|), poses)
              == Sampled(Control(integrator.motion), old(View()), input)
    {
      if replay.None? {
        GoodIsAccepted(integrator.motion, integrator.current, input.segments, input.samples, input.start, input.end);
        var chunk := integrator.IntegrateChunk(input.segments, input.samples);
        return chunk.value;
      }
      var n := ReplayCount(|replay.value|, frames, input);
      var chunk := replay.value[frames..frames + n];
      if n == |input.samples| {
        if frames + n == |replay.value| || input.takeover.Some? {
          FinishReplay(chunk[n - 1]);
        }
        return chunk;
      }
      poses := TakeOver(input, n);
    }

    /** Live control takes over after `n` frames of a window, from the last pose shown. */
    method TakeOver(input: Input<K>, n: nat) returns (poses: seq<P>)
      requires replay.Some? && Steady(View()) && Good(input)
      requires n == ReplayCount(|replay.value|, frames, input) < |input.samples|
      modifies this, integrator
      ensures frames == old(frames)
      ensures (View().(frames := frames + |input.samples|), poses)
              == Sampled(Control(integrator.motion), old(View()), input)
    {
      var chunk := replay.value[frames..frames + n];
      var seed := if n > 0 then chunk[n - 1] else replay.value[if frames > 0 then frames - 1 else 0];
      assert seed == SeedPose(replay.value, frames + n);
      var liveStart := if n > 0 then input.samples[n - 1] else input.start;
      FinishReplay(seed);
      TrimmedCovers(input.segments, input.start, input.end, liveStart);
      GoodIsAccepted(integrator.motion, seed, Trimmed(input.segments, liveStart), input.samples[n..], liveStart,
                     input.end);
      var walked := integrator.IntegrateChunk(Trimmed(input.segments, liveStart), input.samples[n..]);
      var live := walked.value;
      assert (live, integrator.current)
             == Control(integrator.motion)(seed, Trimmed(input.segments, liveStart), input.samples[n..]);
      if n == 0 {
        assert chunk + live == live;
        return live;
      }
      poses := chunk + live;
    }

    method ResetLoop()
      modifies this, integrator
      ensures View() == Camera(this.trajectory, 0, integrator.identity)
    {
      frames := 0;
      integrator.Reset(None);
      replay := trajectory;
    }
  }
}
