/** Waiting-passenger tracks: per-frame visibility turned into pedestrian tracks for the scene conditioner. */
module Passengers {
  import opened Prelude
  import opened Ranking

  type Target = (real, real, real)

  /** Identity of a target: its coordinates rounded to single precision, as a number. */
  type KeyOf = Target -> int

  datatype Snapshot = Snapshot(playing: bool, passengers: seq<Target>, pickups: seq<Target>)

  /** A target visible from frame `first` up to, not including, frame `end`. */
  datatype Span = Span(first: nat, end: nat, target: Target)

  /** Passenger points are used when there are any, pickup points otherwise, and neither once play is over. */
  function VisibleTargets(s: Snapshot): seq<Target> {
    if !s.playing then [] else if s.passengers != [] then s.passengers else s.pickups
  }

  /** A frame shows a passenger while the game is on: those on board, or when there are none those waiting. */
  predicate Shows(s: Snapshot, k: int, keyOf: KeyOf) {
    && s.playing
    && ((exists t :: t in s.passengers && keyOf(t) == k)
        || (s.passengers == [] && exists t :: t in s.pickups && keyOf(t) == k))
  }

  // ---------- counting what covers a frame ----------

  predicate Covers(span: Span, k: int, i: nat, keyOf: KeyOf) {
    keyOf(span.target) == k && span.first <= i < span.end
  }

  /** How many of the spans are for key `k` and contain frame `i`. */
  function Cover(spans: seq<Span>, k: int, i: nat, keyOf: KeyOf): nat {
    if spans == [] then 0
    else Cover(spans[..|spans| - 1], k, i, keyOf) + if Covers(spans[|spans| - 1], k, i, keyOf) then 1 else 0
  }

  lemma {:induction false} CoverSplit(a: seq<Span>, b: seq<Span>, k: int, i: nat, keyOf: KeyOf)
    ensures Cover(a + b, k, i, keyOf) == Cover(a, k, i, keyOf) + Cover(b, k, i, keyOf)
    decreases |b|
  {
    if b == [] {
      assert a + b == a;
    } else {
      CoverSplit(a, b[..|b| - 1], k, i, keyOf);
      assert (a + b)[..|a + b| - 1] == a + b[..|b| - 1];
    }
  }

  lemma {:induction false} CoverPositive(spans: seq<Span>, j: nat, k: int, i: nat, keyOf: KeyOf)
    requires j < |spans| && Covers(spans[j], k, i, keyOf)
    ensures Cover(spans, k, i, keyOf) >= 1
  {
    if j < |spans| - 1 {
      CoverPositive(spans[..|spans| - 1], j, k, i, keyOf);
    }
  }

  // ---------- sorting and emitting ----------

  function SpanKey(keyOf: KeyOf): Span -> Key { (span: Span) => Key(span.first, keyOf(span.target)) }

  lemma {:induction false} CoverPlace(spans: seq<Span>, e: Span, k: int, i: nat, keyOf: KeyOf)
    ensures Cover(Place(spans, e, SpanKey(keyOf)), k, i, keyOf) == Cover(spans + [e], k, i, keyOf)
  {
    assert (spans + [e])[..|spans|] == spans;
    if spans == [] {
      assert [] + [e] == [e];
    } else {
      var init, last := spans[..|spans| - 1], spans[|spans| - 1];
      if !KeyLe(SpanKey(keyOf)(last), SpanKey(keyOf)(e)) {
        CoverPlace(init, e, k, i, keyOf);
        var placed := Place(init, e, SpanKey(keyOf));
        assert (placed + [last])[..|placed|] == placed;
        assert (init + [e])[..|init|] == init;
      }
    }
  }

  lemma {:induction false} CoverSorted(spans: seq<Span>, k: int, i: nat, keyOf: KeyOf)
    ensures Cover(Sorted(spans, SpanKey(keyOf)), k, i, keyOf) == Cover(spans, k, i, keyOf)
  {
    if spans != [] {
      var init, last := spans[..|spans| - 1], spans[|spans| - 1];
      CoverSorted(init, k, i, keyOf);
      CoverPlace(Sorted(init, SpanKey(keyOf)), last, k, i, keyOf);
      var s := Sorted(init, SpanKey(keyOf));
      assert (s + [last])[..|s|] == s;
    }
  }

  /** Single-frame tracks for the frames of a span. */
  function Singles(span: Span, i: nat): (tracks: seq<Span>)
    requires span.first <= i <= span.end
    ensures |tracks| == i - span.first
    ensures forall j :: 0 <= j < |tracks| ==> tracks[j] == Span(span.first + j, span.first + j + 1, span.target)
  {
    if i == span.first then [] else Singles(span, i - 1) + [Span(i - 1, i, span.target)]
  }

  /** One stationary track when visible throughout the chunk, one track a frame otherwise. */
  function Emitted(span: Span, n: nat): seq<Span>
    requires span.first <= span.end
  {
    if span.first == 0 && span.end == n then [span] else Singles(span, span.end)
  }

  ghost predicate Proper(spans: seq<Span>, n: nat) {
    forall j :: 0 <= j < |spans| ==> spans[j].first < spans[j].end <= n
  }

  function EmittedAll(spans: seq<Span>, n: nat): seq<Span>
    requires Proper(spans, n)
  {
    if spans == [] then []
    else EmittedAll(spans[..|spans| - 1], n) + Emitted(spans[|spans| - 1], n)
  }

  lemma {:induction false} CoverSingles(span: Span, m: nat, k: int, i: nat, keyOf: KeyOf)
    requires span.first <= m <= span.end
    ensures Cover(Singles(span, m), k, i, keyOf) == if keyOf(span.target) == k && span.first <= i < m then 1 else 0
    decreases m
  {
    if m > span.first {
      CoverSingles(span, m - 1, k, i, keyOf);
      CoverSplit(Singles(span, m - 1), [Span(m - 1, m, span.target)], k, i, keyOf);
    }
  }

  /** Emitting changes no frame's coverage. */
  lemma {:induction false} CoverEmitted(spans: seq<Span>, n: nat, k: int, i: nat, keyOf: KeyOf)
    requires Proper(spans, n)
    ensures Cover(EmittedAll(spans, n), k, i, keyOf) == Cover(spans, k, i, keyOf)
  {
    if spans != [] {
      var init, last := spans[..|spans| - 1], spans[|spans| - 1];
      CoverEmitted(init, n, k, i, keyOf);
      CoverSplit(EmittedAll(init, n), Emitted(last, n), k, i, keyOf);
      CoverSingles(last, last.end, k, i, keyOf);
    }
  }

  /** Only a track over the whole chunk has more than one frame. */
  lemma {:induction false} EmittedShapes(spans: seq<Span>, n: nat)
    requires Proper(spans, n)
    ensures forall j :: 0 <= j < |EmittedAll(spans, n)| ==>
              var t := EmittedAll(spans, n)[j];
              t.first < t.end <= n && (t.end == t.first + 1 || (t.first == 0 && t.end == n))
  {
    if spans != [] {
      EmittedShapes(spans[..|spans| - 1], n);
    }
  }

  // ---------- the tracker ----------

  type OpenTracks = map<int, (nat, Target)>

  function OpenCover(open: OpenTracks, k: int, i: nat): nat {
    if k in open && open[k].0 <= i then 1 else 0
  }

  /** Completed spans plus open tracks cover each of the first `m` frames exactly where the key is visible. */
  ghost predicate Tracking(snapshots: seq<Snapshot>, m: nat, open: OpenTracks, completed: seq<Span>, keyOf: KeyOf)
    requires m <= |snapshots|
  {
    && Proper(completed, m)
    && (forall k :: k in open ==> open[k].0 < m && keyOf(open[k].1) == k)
    && (forall k, i: nat :: i < m ==>
          Cover(completed, k, i, keyOf) + OpenCover(open, k, i) == if Shows(snapshots[i], k, keyOf) then 1 else 0)
  }

  /** A completed span ends where its key is out of sight, or with the chunk. */
  ghost predicate EndsUnseen(snapshots: seq<Snapshot>, completed: seq<Span>, keyOf: KeyOf) {
    forall span :: span in completed && span.end < |snapshots| ==>
      !Shows(snapshots[span.end], keyOf(span.target), keyOf)
  }

  lemma {:induction false} CoveredBySome(spans: seq<Span>, k: int, i: nat, keyOf: KeyOf)
    requires Cover(spans, k, i, keyOf) > 0
    ensures exists span :: span in spans && Covers(span, k, i, keyOf)
  {
    var init, last := spans[..|spans| - 1], spans[|spans| - 1];
    if !Covers(last, k, i, keyOf) {
      CoveredBySome(init, k, i, keyOf);
    }
  }

  lemma {:induction false} WholeIsEmitted(spans: seq<Span>, n: nat, span: Span)
    requires Proper(spans, n) && span in spans && span.first == 0 && span.end == n
    ensures span in EmittedAll(spans, n)
  {
    if span != spans[|spans| - 1] {
      WholeIsEmitted(spans[..|spans| - 1], n, span);
    }
  }

  ghost predicate AlwaysShown(snapshots: seq<Snapshot>, k: int, keyOf: KeyOf) {
    forall i :: 0 <= i < |snapshots| ==> Shows(snapshots[i], k, keyOf)
  }

  ghost predicate HasWhole(tracks: seq<Span>, n: nat, k: int, keyOf: KeyOf) {
    exists t :: t in tracks && t.first == 0 && t.end == n && keyOf(t.target) == k
  }

  /** A key in sight throughout the chunk has a span over all of it. */
  lemma {:induction false} AlwaysSeenIsWhole(snapshots: seq<Snapshot>, spans: seq<Span>, k: int, keyOf: KeyOf)
    requires snapshots != [] && Proper(spans, |snapshots|) && EndsUnseen(snapshots, spans, keyOf)
    requires Cover(spans, k, 0, keyOf) > 0 && AlwaysShown(snapshots, k, keyOf)
    ensures HasWhole(EmittedAll(spans, |snapshots|), |snapshots|, k, keyOf)
  {
    CoveredBySome(spans, k, 0, keyOf);
    var span :| span in spans && Covers(span, k, 0, keyOf);
    WholeIsEmitted(spans, |snapshots|, span);
  }

  lemma {:induction false} HasElement(s: set<int>)
    requires s != {}
    ensures exists k :: k in s
  {
    assert (forall k :: k !in s) ==> s == {};
  }

  /** Tracks of keys that just went out of sight, closed in any order. */
  method CloseTracks(open: OpenTracks, gone: set<int>, completed: seq<Span>, frame: nat, ghost keyOf: KeyOf)
    returns (open': OpenTracks, completed': seq<Span>)
    requires gone <= open.Keys && Proper(completed, frame)
    requires forall k :: k in open ==> open[k].0 < frame && keyOf(open[k].1) == k
    ensures open' == open - gone && Proper(completed', frame)
    ensures forall k, i: nat :: i < frame ==>
              Cover(completed', k, i, keyOf) + OpenCover(open', k, i)
                == Cover(completed, k, i, keyOf) + OpenCover(open, k, i)
    ensures forall k, i: nat :: i >= frame ==> Cover(completed', k, i, keyOf) == Cover(completed, k, i, keyOf)
    ensures forall span :: span in completed' ==>
              span in completed || (span.end == frame && keyOf(span.target) in gone)
  {
    open', completed' := open, completed;
    var left: set<int> := gone;
    while left != {}
      invariant left <= gone && open' == open - (gone - left) && Proper(completed', frame)
      invariant forall k, i: nat :: i < frame ==>
                  Cover(completed', k, i, keyOf) + OpenCover(open', k, i)
                    == Cover(completed, k, i, keyOf) + OpenCover(open, k, i)
      invariant forall k, i: nat :: i >= frame ==> Cover(completed', k, i, keyOf) == Cover(completed, k, i, keyOf)
      invariant forall span :: span in completed' ==>
                  span in completed || (span.end == frame && keyOf(span.target) in gone)
      decreases left
    {
      HasElement(left);
      var key :| key in left;
      var (start, target) := open'[key];
      ghost var before := completed';
      var span := Span(start, frame, target);
      completed' := completed' + [span];
      open' := open' - {key};
      left := left - {key};
      forall k, i: nat
        ensures Cover(completed', k, i, keyOf)
                == Cover(before, k, i, keyOf) + if k == key && start <= i < frame then 1 else 0
      {
        CoverSplit(before, [span], k, i, keyOf);
      }
    }
  }

  function VisibleByKey(targets: seq<Target>, keyOf: KeyOf): (m: map<int, Target>)
    ensures forall k :: k in m <==> exists t :: t in targets && keyOf(t) == k
    ensures forall k :: k in m ==> keyOf(m[k]) == k && m[k] in targets
  {
    if targets == [] then map[]
    else
      var init, last := targets[..|targets| - 1], targets[|targets| - 1];
      assert targets == init + [last];
      VisibleByKey(init, keyOf)[keyOf(last) := last]
  }

  /** Keys that just came into sight start a track; tracks already open keep their start. */
  function OpenNew(open: OpenTracks, visible: map<int, Target>, frame: nat): (r: OpenTracks)
    ensures r.Keys == open.Keys + visible.Keys
    ensures forall k :: k in r ==> r[k] == if k in open then open[k] else (frame, visible[k])
  {
    map k | k in open.Keys + visible.Keys :: if k in open then open[k] else (frame, visible[k])
  }

  method TrackFrame(snapshots: seq<Snapshot>, frame: nat, open: OpenTracks, completed: seq<Span>, keyOf: KeyOf)
    returns (open': OpenTracks, completed': seq<Span>)
    requires frame < |snapshots| && Tracking(snapshots, frame, open, completed, keyOf)
    requires EndsUnseen(snapshots, completed, keyOf)
    ensures Tracking(snapshots, frame + 1, open', completed', keyOf) && EndsUnseen(snapshots, completed', keyOf)
  {
    var visible := VisibleByKey(VisibleTargets(snapshots[frame]), keyOf);
    open', completed' := CloseTracks(open, open.Keys - visible.Keys, completed, frame, keyOf);
    ghost var kept := open';
    open' := OpenNew(open', visible, frame);
    forall k, i: nat | i < frame + 1
      ensures Cover(completed', k, i, keyOf) + OpenCover(open', k, i) == if Shows(snapshots[i], k, keyOf) then 1 else 0
    {
      if i == frame {
        CoverBeyond(completed, frame, k, i, keyOf);
        assert k in open' <==> k in visible;
      } else {
        assert OpenCover(open', k, i) == OpenCover(kept, k, i);
      }
    }
  }

  lemma {:induction false} CoverBeyond(spans: seq<Span>, m: nat, k: int, i: nat, keyOf: KeyOf)
    requires Proper(spans, m) && i >= m
    ensures Cover(spans, k, i, keyOf) == 0
  {
    if spans != [] {
      CoverBeyond(spans[..|spans| - 1], m, k, i, keyOf);
    }
  }

  /** Each key is covered in each frame exactly if it is visible there. */
  ghost predicate CoversExactly(snapshots: seq<Snapshot>, tracks: seq<Span>, keyOf: KeyOf) {
    forall k, i: nat :: i < |snapshots| ==>
      Cover(tracks, k, i, keyOf) == if Shows(snapshots[i], k, keyOf) then 1 else 0
  }

  /** A track extends over several frames only over all of them, and only for a key visible in all of them. */
  ghost predicate ExtendsSafely(snapshots: seq<Snapshot>, tracks: seq<Span>, keyOf: KeyOf) {
    forall t :: t in tracks ==>
      && t.first < t.end <= |snapshots|
      && (t.end > t.first + 1 ==>
            t.first == 0 && t.end == |snapshots| && AlwaysShown(snapshots, keyOf(t.target), keyOf))
  }

  /** What the completed spans say of the chunk, their sorted and emitted tracks say too. */
  lemma {:induction false} EmittedIsRight(snapshots: seq<Snapshot>, completed: seq<Span>, keyOf: KeyOf)
    requires Proper(completed, |snapshots|) && EndsUnseen(snapshots, completed, keyOf)
    requires CoversExactly(snapshots, completed, keyOf)
    ensures var spans := Sorted(completed, SpanKey(keyOf));
            && Proper(spans, |snapshots|) && Ascending(spans, SpanKey(keyOf))
            && var tracks := EmittedAll(spans, |snapshots|);
               && CoversExactly(snapshots, tracks, keyOf)
               && ExtendsSafely(snapshots, tracks, keyOf)
               && forall k :: snapshots != [] && AlwaysShown(snapshots, k, keyOf) ==>
                    HasWhole(tracks, |snapshots|, k, keyOf)
  {
    var n, spans := |snapshots|, Sorted(completed, SpanKey(keyOf));
    SortedProper(completed, n, keyOf);
    SortedAscends(completed, SpanKey(keyOf));
    SortedHolds(completed, keyOf);
    var tracks := EmittedAll(spans, n);
    forall k, i: nat | i < n ensures Cover(tracks, k, i, keyOf) == Cover(completed, k, i, keyOf) {
      CoverEmitted(spans, n, k, i, keyOf);
      CoverSorted(completed, k, i, keyOf);
    }
    EmittedExtends(snapshots, spans, keyOf);
    forall k | n > 0 && AlwaysShown(snapshots, k, keyOf) ensures HasWhole(tracks, n, k, keyOf) {
      CoverSorted(completed, k, 0, keyOf);
      AlwaysSeenIsWhole(snapshots, spans, k, keyOf);
    }
  }

  lemma {:induction false} EmittedExtends(snapshots: seq<Snapshot>, spans: seq<Span>, keyOf: KeyOf)
    requires Proper(spans, |snapshots|) && CoversExactly(snapshots, EmittedAll(spans, |snapshots|), keyOf)
    ensures ExtendsSafely(snapshots, EmittedAll(spans, |snapshots|), keyOf)
  {
    var tracks := EmittedAll(spans, |snapshots|);
    EmittedShapes(spans, |snapshots|);
    forall t, i: nat | t in tracks && t.end > t.first + 1 && i < |snapshots|
      ensures Shows(snapshots[i], keyOf(t.target), keyOf)
    {
      var j :| 0 <= j < |tracks| && tracks[j] == t;
      CoverPositive(tracks, j, keyOf(t.target), i, keyOf);
    }
  }

  /** The tracks for one chunk of frames: exact per frame, and extended over several frames only when that is safe. */
  method BuildPassengerTracks(snapshots: seq<Snapshot>, timestamps: seq<int>, keyOf: KeyOf)
    returns (r: Option<seq<Span>>)
    ensures r.None? <==> |snapshots| != |timestamps|
    ensures r.Some? ==> CoversExactly(snapshots, r.value, keyOf) && ExtendsSafely(snapshots, r.value, keyOf)
    ensures r.Some? && snapshots != [] ==>
              forall k :: AlwaysShown(snapshots, k, keyOf) ==> HasWhole(r.value, |snapshots|, k, keyOf)
    ensures r.Some? ==> exists spans ::
              Proper(spans, |snapshots|) && Ascending(spans, SpanKey(keyOf))
                && r.value == EmittedAll(spans, |snapshots|)
  {
    if |snapshots| != |timestamps| {
      return None;
    }
    var n := |snapshots|;
    var open: OpenTracks := map[];
    var completed: seq<Span> := [];
    for frame := 0 to n
      invariant Tracking(snapshots, frame, open, completed, keyOf) && EndsUnseen(snapshots, completed, keyOf)
    {
      open, completed := TrackFrame(snapshots, frame, open, completed, keyOf);
    }
    open, completed := CloseTracks(open, open.Keys, completed, n, keyOf);
    assert CoversExactly(snapshots, completed, keyOf);
    EmittedIsRight(snapshots, completed, keyOf);
    completed := Sorted(completed, SpanKey(keyOf));
    r := Some(EmittedAll(completed, n));
  }

  lemma {:induction false} SortedHolds(spans: seq<Span>, keyOf: KeyOf)
    ensures forall span :: span in Sorted(spans, SpanKey(keyOf)) ==> span in spans
  {
    SortedPermutes(spans, SpanKey(keyOf));
    forall span | span in Sorted(spans, SpanKey(keyOf)) ensures span in spans {
      assert span in multiset(Sorted(spans, SpanKey(keyOf)));
    }
  }

  lemma {:induction false} SortedProper(spans: seq<Span>, n: nat, keyOf: KeyOf)
    requires Proper(spans, n)
    ensures Proper(Sorted(spans, SpanKey(keyOf)), n)
  {
    SortedPermutes(spans, SpanKey(keyOf));
    var s := Sorted(spans, SpanKey(keyOf));
    forall j | 0 <= j < |s| ensures s[j].first < s[j].end <= n {
      assert s[j] in multiset(s);
      assert s[j] in multiset(spans);
      assert s[j] in spans;
    }
  }
}
