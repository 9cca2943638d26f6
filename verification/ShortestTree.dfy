/** The heap-driven shortest-path search, first as a function and then as the loop that computes it. */
module ShortestTree {
  import opened LaneGraphs

  /** One queue element: a tentative distance and the lane it was computed for. */
  datatype Entry = Entry(metres: real, lane: nat)

  /** Tuples compare by distance first and lane number second. */
  predicate AtMost(a: Entry, b: Entry) {
    a.metres < b.metres || (a.metres == b.metres && a.lane <= b.lane)
  }

  /** Everything the search loop updates. */
  datatype Search = Search(distances: seq<Distance>, predecessors: seq<int>, queue: seq<Entry>)

  ghost predicate Shaped(g: LaneGraph, s: Search) {
    && |s.distances| == |s.predecessors| == g.LaneCount()
    && forall e :: e in s.queue ==> e.lane < g.LaneCount()
  }

  // ---------- the search as a function ----------

  /** Index of the least entry of a non-empty queue. */
  function LeastIndex(queue: seq<Entry>): (i: nat)
    requires queue != []
    ensures i < |queue|
    ensures forall j :: 0 <= j < |queue| ==> AtMost(queue[i], queue[j])
  {
    if |queue| == 1 then 0
    else
      var i := LeastIndex(queue[..|queue| - 1]);
      assert forall j :: 0 <= j < |queue| - 1 ==> queue[j] == queue[..|queue| - 1][j];
      if AtMost(queue[i], queue[|queue| - 1]) then i else |queue| - 1
  }

  function Without(queue: seq<Entry>, i: nat): (rest: seq<Entry>)
    requires i < |queue|
    ensures |rest| == |queue| - 1
    ensures forall e :: e in rest ==> e in queue
    ensures forall e :: e in queue && e != queue[i] ==> e in rest
  {
    assert queue == queue[..i] + [queue[i]] + queue[i + 1..];
    queue[..i] + queue[i + 1..]
  }

  /** Record that `lane` is now reached from `via` at `metres`, and queue it. */
  function Improve(s: Search, lane: nat, via: nat, metres: real): Search
    requires lane < |s.distances| == |s.predecessors|
  {
    Search(s.distances[lane := At(metres)], s.predecessors[lane := via], s.queue + [Entry(metres, lane)])
  }

  predicate Closer(metres: real, current: Distance, slack: real) {
    current.Unreached? || metres + slack < current.metres
  }

  /** Offer the continuations of `lane` from the `k`-th on; `exit` is the distance at the end of `lane`. */
  function Relax(g: LaneGraph, lane: nat, exit: real, slack: real, s: Search, k: nat): (r: Search)
    requires g.Valid() && Shaped(g, s) && lane < g.LaneCount() && k <= |g.adjacency[lane]|
    ensures Shaped(g, r)
    decreases |g.adjacency[lane]| - k
  {
    if k == |g.adjacency[lane]| then s
    else
      Relax(g, lane, exit, slack, RelaxOne(g, lane, exit, slack, s, k), k + 1)
  }

  function RelaxOne(g: LaneGraph, lane: nat, exit: real, slack: real, s: Search, k: nat): (r: Search)
    requires g.Valid() && Shaped(g, s) && lane < g.LaneCount() && k < |g.adjacency[lane]|
    ensures Shaped(g, r)
  {
    var edge := g.adjacency[lane][k];
    if Closer(exit + edge.gap, s.distances[edge.successor], slack)
    then Improve(s, edge.successor, lane, exit + edge.gap)
    else s
  }

  function Blank(g: LaneGraph): Search {
    Search(seq(g.LaneCount(), i => Unreached), seq(g.LaneCount(), i => -1), [])
  }

  /** The continuations of the start lane are offered without slack. */
  function Seeded(g: LaneGraph, start: LanePosition): Search
    requires g.Valid() && g.Holds(start)
  {
    Relax(g, start.lane, g.Remaining(start), 0.0, Blank(g), 0)
  }

  predicate Stale(s: Search, e: Entry)
    requires e.lane < |s.distances|
  {
    s.distances[e.lane].At? && e.metres > s.distances[e.lane].metres + SLACK
  }

  /** One turn of the loop: pop the least entry, and relax its lane unless the entry is stale. */
  function Turn(g: LaneGraph, s: Search): (r: Search)
    requires g.Valid() && Shaped(g, s) && s.queue != []
    ensures Shaped(g, r)
  {
    var i := LeastIndex(s.queue);
    var e := s.queue[i];
    assert e in s.queue;
    var popped := s.(queue := Without(s.queue, i));
    if Stale(s, e) then popped
    else Relax(g, e.lane, e.metres + g.lengths[e.lane], SLACK, popped, 0)
  }

  // ---------- the loop invariant ----------

  /** Distance at the far end of a lane: the start lane is left from the start position. */
  ghost function ExitOf(g: LaneGraph, start: LanePosition, distances: seq<Distance>, u: nat): real
    requires g.Holds(start) && u < |distances| == g.LaneCount()
    requires u != start.lane ==> distances[u].At?
  {
    if u == start.lane then g.Remaining(start) else distances[u].metres + g.lengths[u]
  }

  /** The lane's distance is its predecessor's exit distance plus the gap of an edge between them. */
  ghost predicate Linked(g: LaneGraph, start: LanePosition, distances: seq<Distance>, predecessors: seq<int>, v: nat)
    requires g.Valid() && g.Holds(start)
    requires |distances| == |predecessors| == g.LaneCount() && v < g.LaneCount()
  {
    var p := predecessors[v];
    && distances[v].At?
    && 0 <= p < g.LaneCount()
    && (p != start.lane ==> distances[p].At?)
    && exists e :: e in g.adjacency[p] && e.successor == v
                   && distances[v].metres == ExitOf(g, start, distances, p) + e.gap
  }

  ghost predicate Relaxed(distances: seq<Distance>, exit: real, slack: real, e: Edge) {
    && e.successor < |distances|
    && distances[e.successor].At?
    && distances[e.successor].metres <= exit + e.gap + slack
  }

  /** Either no walk to `v` has been found, or its link leads to the start lane or to an expanded lane. */
  ghost predicate TreeAt(g: LaneGraph, start: LanePosition, s: Search, done: set<nat>, v: nat)
    requires g.Valid() && g.Holds(start) && Shaped(g, s) && v < g.LaneCount()
  {
    if s.distances[v].At? then
      && s.distances[v].metres >= g.Remaining(start)
      && Linked(g, start, s.distances, s.predecessors, v)
      && (s.predecessors[v] == start.lane || s.predecessors[v] in done)
    else s.predecessors[v] == -1
  }

  // The explicit trigger keeps the solver from walking down the tree by itself.
  ghost predicate TreeSoFar(g: LaneGraph, start: LanePosition, s: Search, done: set<nat>)
    requires g.Valid() && g.Holds(start) && Shaped(g, s)
  {
    forall v: nat {:trigger TreeAt(g, start, s, done, v)} ::
      v < g.LaneCount() ==> TreeAt(g, start, s, done, v)
  }

  ghost predicate QueueCovers(g: LaneGraph, s: Search, done: set<nat>)
    requires Shaped(g, s)
  {
    && (forall v :: 0 <= v < g.LaneCount() && s.distances[v].At? && v !in done ==>
          Entry(s.distances[v].metres, v) in s.queue)
    && (forall e :: e in s.queue ==>
          s.distances[e.lane].At? && e.metres >= s.distances[e.lane].metres)
  }

  ghost predicate DoneBelow(s: Search, done: set<nat>, metres: real) {
    forall u :: u in done ==> u < |s.distances| && s.distances[u].At? && s.distances[u].metres <= metres
  }

  ghost predicate DoneBelowQueue(s: Search, done: set<nat>) {
    forall e :: e in s.queue ==> DoneBelow(s, done, e.metres)
  }

  ghost predicate SeedsRelaxed(g: LaneGraph, start: LanePosition, s: Search)
    requires g.Valid() && g.Holds(start)
  {
    forall e :: e in g.adjacency[start.lane] ==> Relaxed(s.distances, g.Remaining(start), 0.0, e)
  }

  ghost predicate DoneRelaxed(g: LaneGraph, s: Search, done: set<nat>)
    requires g.Valid()
  {
    forall u :: u in done ==>
      u < |s.distances| == g.LaneCount() && s.distances[u].At? && AllRelaxed(g, s.distances, u)
  }

  ghost predicate AllRelaxed(g: LaneGraph, distances: seq<Distance>, u: nat)
    requires g.Valid() && u < |distances| == g.LaneCount() && distances[u].At?
  {
    forall e :: e in g.adjacency[u] ==> Relaxed(distances, distances[u].metres + g.lengths[u], SLACK, e)
  }

  /** What every turn of the loop keeps; `done` is the set of lanes already expanded. */
  ghost predicate Inv(g: LaneGraph, start: LanePosition, s: Search, done: set<nat>) {
    && g.Valid() && g.Holds(start) && Shaped(g, s)
    && TreeSoFar(g, start, s, done)
    && SeedsRelaxed(g, start, s)
    && DoneRelaxed(g, s, done)
    && QueueCovers(g, s, done)
    && DoneBelowQueue(s, done)
  }

  // ---------- seeding ----------

  ghost predicate SeedInv(g: LaneGraph, start: LanePosition, s: Search, k: nat) {
    && g.Valid() && g.Holds(start) && Shaped(g, s) && k <= |g.adjacency[start.lane]|
    && TreeSoFar(g, start, s, {})
    && QueueCovers(g, s, {})
    && forall j :: 0 <= j < k ==> Relaxed(s.distances, g.Remaining(start), 0.0, g.adjacency[start.lane][j])
  }

  lemma {:induction false} SeedOne(g: LaneGraph, start: LanePosition, s: Search, k: nat)
    requires SeedInv(g, start, s, k) && k < |g.adjacency[start.lane]|
    ensures SeedInv(g, start, RelaxOne(g, start.lane, g.Remaining(start), 0.0, s, k), k + 1)
  {
    var edge := g.adjacency[start.lane][k];
    var r := RelaxOne(g, start.lane, g.Remaining(start), 0.0, s, k);
    forall v: nat | v < g.LaneCount() ensures TreeAt(g, start, r, {}, v) {
      assert TreeAt(g, start, s, {}, v);
      assert edge in g.adjacency[start.lane];
    }
  }

  lemma {:induction false} SeedAll(g: LaneGraph, start: LanePosition, s: Search, k: nat)
    requires SeedInv(g, start, s, k)
    ensures SeedInv(g, start, Relax(g, start.lane, g.Remaining(start), 0.0, s, k), |g.adjacency[start.lane]|)
    decreases |g.adjacency[start.lane]| - k
  {
    if k < |g.adjacency[start.lane]| {
      SeedOne(g, start, s, k);
      SeedAll(g, start, RelaxOne(g, start.lane, g.Remaining(start), 0.0, s, k), k + 1);
    }
  }

  lemma {:induction false} SeededKeeps(g: LaneGraph, start: LanePosition)
    requires g.Valid() && g.Holds(start)
    ensures Inv(g, start, Seeded(g, start), {})
  {
    SeedAll(g, start, Blank(g), 0);
  }

  // ---------- one turn ----------

  /** Mid-way through expanding `lane`, popped at `metres`; `first` when it had not been expanded before. */
  ghost predicate MidInv(g: LaneGraph, start: LanePosition, s: Search, done: set<nat>,
                         lane: nat, metres: real, first: bool, k: nat) {
    && g.Valid() && g.Holds(start) && Shaped(g, s)
    && lane in done && lane < g.LaneCount() && k <= |g.adjacency[lane]|
    && TreeSoFar(g, start, s, done)
    && SeedsRelaxed(g, start, s)
    && DoneRelaxed(g, s, done - {lane})
    && QueueCovers(g, s, done)
    && DoneBelow(s, done, metres)
    && (forall e :: e in s.queue ==> metres <= e.metres)
    && (first ==> s.distances[lane].metres == metres)
    && (!first ==> AllRelaxed(g, s.distances, lane))
    && forall j :: 0 <= j < k ==>
         Relaxed(s.distances, s.distances[lane].metres + g.lengths[lane], SLACK, g.adjacency[lane][j])
  }

  lemma {:induction false} MidOne(g: LaneGraph, start: LanePosition, s: Search, done: set<nat>,
               lane: nat, metres: real, first: bool, k: nat)
    requires MidInv(g, start, s, done, lane, metres, first, k) && k < |g.adjacency[lane]|
    ensures var r := RelaxOne(g, lane, metres + g.lengths[lane], SLACK, s, k);
            && MidInv(g, start, r, done, lane, metres, first, k + 1)
            && (!first ==> r == s)
  {
    var edge := g.adjacency[lane][k];
    assert edge in g.adjacency[lane];
    if Closer(metres + g.lengths[lane] + edge.gap, s.distances[edge.successor], SLACK) {
      MidImprove(g, start, s, done, lane, metres, first, k);
    }
  }

  /** An improved lane has not been expanded, and is not reached over the start lane's own end. */
  lemma {:induction false} MidImprove(g: LaneGraph, start: LanePosition, s: Search, done: set<nat>,
                   lane: nat, metres: real, first: bool, k: nat)
    requires MidInv(g, start, s, done, lane, metres, first, k) && k < |g.adjacency[lane]|
    requires var edge := g.adjacency[lane][k];
             Closer(metres + g.lengths[lane] + edge.gap, s.distances[edge.successor], SLACK)
    ensures first
    ensures var edge := g.adjacency[lane][k];
            var r := Improve(s, edge.successor, lane, metres + g.lengths[lane] + edge.gap);
            MidInv(g, start, r, done, lane, metres, first, k + 1)
  {
    var edge := g.adjacency[lane][k];
    var w := edge.successor;
    assert edge in g.adjacency[lane];
    assert TreeAt(g, start, s, done, lane);
    assert lane == start.lane ==> Relaxed(s.distances, g.Remaining(start), 0.0, edge);
    assert lane != start.lane;
    var candidate := metres + g.lengths[lane] + edge.gap;
    var r := Improve(s, w, lane, candidate);
    assert w !in done;
    ImproveKeepsTree(g, start, s, done, w, lane, edge, candidate);
    ImproveKeepsRelaxed(g, start, s, done - {lane}, w, lane, candidate);
  }

  lemma {:induction false} ImproveKeepsTree(g: LaneGraph, start: LanePosition, s: Search, done: set<nat>,
                         w: nat, via: nat, edge: Edge, metres: real)
    requires g.Valid() && g.Holds(start) && Shaped(g, s) && TreeSoFar(g, start, s, done)
    requires w < g.LaneCount() && w !in done && via in done && via < g.LaneCount() && via != start.lane
    requires s.distances[via].At? && s.distances[via].metres >= g.Remaining(start)
    requires edge in g.adjacency[via] && edge.successor == w && edge.gap >= 0.0
    requires metres == s.distances[via].metres + g.lengths[via] + edge.gap
    ensures TreeSoFar(g, start, Improve(s, w, via, metres), done)
  {
    var r := Improve(s, w, via, metres);
    forall v: nat | v < g.LaneCount() ensures TreeAt(g, start, r, done, v) {
      assert TreeAt(g, start, s, done, v);
      if v == w {
        assert ExitOf(g, start, r.distances, via) == s.distances[via].metres + g.lengths[via];
        assert Linked(g, start, r.distances, r.predecessors, v);
      }
    }
  }

  /** Lowering a lane's distance leaves every relaxed edge relaxed. */
  lemma {:induction false} ImproveKeepsRelaxed(g: LaneGraph, start: LanePosition, s: Search, done: set<nat>,
                            w: nat, via: nat, metres: real)
    requires g.Valid() && g.Holds(start) && Shaped(g, s) && SeedsRelaxed(g, start, s) && DoneRelaxed(g, s, done)
    requires w < g.LaneCount() && w !in done
    requires s.distances[w].At? ==> metres <= s.distances[w].metres
    ensures SeedsRelaxed(g, start, Improve(s, w, via, metres))
    ensures DoneRelaxed(g, Improve(s, w, via, metres), done)
  {
    var r := Improve(s, w, via, metres);
    forall u | u in done ensures AllRelaxed(g, r.distances, u) {
      assert AllRelaxed(g, s.distances, u);
    }
  }

  lemma {:induction false} MidAll(g: LaneGraph, start: LanePosition, s: Search, done: set<nat>,
                                  lane: nat, metres: real, first: bool, k: nat)
    requires MidInv(g, start, s, done, lane, metres, first, k)
    ensures var r := Relax(g, lane, metres + g.lengths[lane], SLACK, s, k);
            && MidInv(g, start, r, done, lane, metres, first, |g.adjacency[lane]|)
            && (!first ==> r == s)
    decreases |g.adjacency[lane]| - k
  {
    if k < |g.adjacency[lane]| {
      MidOne(g, start, s, done, lane, metres, first, k);
      MidAll(g, start, RelaxOne(g, lane, metres + g.lengths[lane], SLACK, s, k), done, lane, metres, first, k + 1);
    }
  }

  /** The lanes expanded after one more turn. */
  ghost function DoneAfter(s: Search, done: set<nat>): set<nat>
    requires s.queue != [] && forall e :: e in s.queue ==> e.lane < |s.distances|
  {
    var e := s.queue[LeastIndex(s.queue)];
    assert e in s.queue;
    if Stale(s, e) then done else done + {e.lane}
  }

  ghost function UpTo(n: nat): (r: set<nat>)
    ensures |r| == n && forall i: nat :: i in r <==> i < n
  {
    if n == 0 then {} else UpTo(n - 1) + {n - 1}
  }

  lemma {:induction false} LanesBounded(g: LaneGraph, done: set<nat>)
    requires forall u :: u in done ==> u < g.LaneCount()
    ensures |done| <= g.LaneCount()
  {
    SubsetSize(done, UpTo(g.LaneCount()));
  }

  lemma {:induction false} SubsetSize<T>(a: set<T>, b: set<T>)
    requires a <= b
    ensures |a| <= |b|
    ensures a != b ==> |a| < |b|
  {
    if a != {} {
      var x :| x in a;
      SubsetSize(a - {x}, b - {x});
    } else if b != {} {
      var y :| y in b;
      assert b == (b - {y}) + {y};
    }
  }

  /** Loop variant, read lexicographically: lanes still to expand, then queue length. */
  ghost predicate Smaller(g: LaneGraph, s: Search, done: set<nat>, s': Search, done': set<nat>) {
    |done| < |done'| || (done == done' && |s'.queue| < |s.queue|)
  }

  /** A lane's first unstale pop carries exactly its current distance. */
  lemma {:induction false} FirstPopExact(g: LaneGraph, start: LanePosition, s: Search, done: set<nat>)
    requires Inv(g, start, s, done) && s.queue != []
    ensures var e := s.queue[LeastIndex(s.queue)];
            e.lane < g.LaneCount() && (e.lane !in done ==> s.distances[e.lane] == At(e.metres))
  {
    var e := s.queue[LeastIndex(s.queue)];
    assert e in s.queue;
    if e.lane !in done {
      assert Entry(s.distances[e.lane].metres, e.lane) in s.queue;
      var j :| 0 <= j < |s.queue| && s.queue[j] == Entry(s.distances[e.lane].metres, e.lane);
      assert AtMost(e, s.queue[j]);
    }
  }

  lemma {:induction false} StalePopKeeps(g: LaneGraph, start: LanePosition, s: Search, done: set<nat>)
    requires Inv(g, start, s, done) && s.queue != []
    requires var e := s.queue[LeastIndex(s.queue)]; e.lane < |s.distances| && Stale(s, e)
    ensures Inv(g, start, s.(queue := Without(s.queue, LeastIndex(s.queue))), done)
  {
    var popped := s.(queue := Without(s.queue, LeastIndex(s.queue)));
    forall u | u in done ensures AllRelaxed(g, popped.distances, u) {
      assert AllRelaxed(g, s.distances, u);
    }
    forall v: nat | v < g.LaneCount() ensures TreeAt(g, start, popped, done, v) {
      assert TreeAt(g, start, s, done, v);
    }
  }

  /** Every turn keeps the invariant and shrinks the variant. */
  lemma {:induction false} TurnKeeps(g: LaneGraph, start: LanePosition, s: Search, done: set<nat>)
    requires Inv(g, start, s, done) && s.queue != []
    ensures Inv(g, start, Turn(g, s), DoneAfter(s, done))
    ensures Smaller(g, s, done, Turn(g, s), DoneAfter(s, done))
  {
    var i := LeastIndex(s.queue);
    var e := s.queue[i];
    assert e in s.queue;
    if Stale(s, e) {
      StalePopKeeps(g, start, s, done);
    } else {
      FirstPopExact(g, start, s, done);
      ExpandKeeps(g, start, s, done, e, i);
    }
  }

  lemma {:induction false} ExpandKeeps(g: LaneGraph, start: LanePosition, s: Search, done: set<nat>, e: Entry, i: nat)
    requires Inv(g, start, s, done) && s.queue != [] && i == LeastIndex(s.queue) && e == s.queue[i]
    requires e.lane < g.LaneCount() && !Stale(s, e)
    requires e.lane !in done ==> s.distances[e.lane] == At(e.metres)
    ensures Inv(g, start, Turn(g, s), done + {e.lane})
    ensures Smaller(g, s, done, Turn(g, s), done + {e.lane})
  {
    var popped := s.(queue := Without(s.queue, i));
    var first := e.lane !in done;
    MidStart(g, start, s, done, e, i);
    MidAll(g, start, popped, done + {e.lane}, e.lane, e.metres, first, 0);
    var r := Relax(g, e.lane, e.metres + g.lengths[e.lane], SLACK, popped, 0);
    MidDone(g, start, r, done + {e.lane}, e.lane, e.metres, first);
    assert r == Turn(g, s);
    if !first { assert done + {e.lane} == done; }
  }

  lemma {:induction false} MidStart(g: LaneGraph, start: LanePosition, s: Search, done: set<nat>, e: Entry, i: nat)
    requires Inv(g, start, s, done) && s.queue != [] && i == LeastIndex(s.queue) && e == s.queue[i]
    requires e.lane !in done ==> s.distances[e.lane] == At(e.metres)
    ensures MidInv(g, start, s.(queue := Without(s.queue, i)), done + {e.lane}, e.lane, e.metres, e.lane !in done, 0)
  {
    assert e in s.queue;
    var done' := done + {e.lane};
    var popped := s.(queue := Without(s.queue, i));
    forall v: nat | v < g.LaneCount() ensures TreeAt(g, start, popped, done', v) {
      assert TreeAt(g, start, s, done, v);
    }
    forall f | f in popped.queue ensures e.metres <= f.metres {
      var j :| 0 <= j < |s.queue| && s.queue[j] == f;
      assert AtMost(s.queue[i], s.queue[j]);
    }
    assert DoneBelow(s, done, e.metres);
  }

  lemma {:induction false} MidDone(g: LaneGraph, start: LanePosition, s: Search, done: set<nat>, lane: nat,
                                   metres: real, first: bool)
    requires lane < |g.adjacency|
    requires MidInv(g, start, s, done, lane, metres, first, |g.adjacency[lane]|)
    ensures Inv(g, start, s, done)
  {
    forall e | e in s.queue ensures DoneBelow(s, done, e.metres) {
      assert DoneBelow(s, done, metres);
    }
    forall u | u in done ensures AllRelaxed(g, s.distances, u) {
      if u == lane {
        forall e | e in g.adjacency[lane]
          ensures Relaxed(s.distances, s.distances[lane].metres + g.lengths[lane], SLACK, e)
        {
          var j :| 0 <= j < |g.adjacency[lane]| && g.adjacency[lane][j] == e;
        }
      }
    }
  }

  // ---------- running the loop ----------

  /** Turns taken until the queue is empty. */
  ghost function Run(g: LaneGraph, start: LanePosition, s: Search, done: set<nat>): (r: Search)
    requires Inv(g, start, s, done)
    ensures Shaped(g, r)
    decreases g.LaneCount() - |done|, |s.queue|
  {
    if s.queue == [] then s
    else
      TurnKeeps(g, start, s, done);
      LanesBounded(g, done);
      LanesBounded(g, DoneAfter(s, done));
      Run(g, start, Turn(g, s), DoneAfter(s, done))
  }

  /** The finished search from a start position. */
  ghost function Tree(g: LaneGraph, start: LanePosition): (r: Search)
    requires g.Valid() && g.Holds(start)
    ensures Shaped(g, r)
  {
    SeededKeeps(g, start);
    Run(g, start, Seeded(g, start), {})
  }

  /** What the finished search guarantees about its distances and predecessors. */
  ghost predicate Finished(g: LaneGraph, start: LanePosition, s: Search) {
    && g.Valid() && g.Holds(start) && Shaped(g, s)
    && TreeSoFar(g, start, s, UpTo(g.LaneCount()))
    && SeedsRelaxed(g, start, s)
    && (forall u :: 0 <= u < g.LaneCount() && s.distances[u].At? ==> AllRelaxed(g, s.distances, u))
  }

  lemma {:induction false} RunFinishes(g: LaneGraph, start: LanePosition, s: Search, done: set<nat>)
    requires Inv(g, start, s, done)
    ensures Finished(g, start, Run(g, start, s, done))
    decreases g.LaneCount() - |done|, |s.queue|
  {
    if s.queue == [] {
      assert forall u :: 0 <= u < g.LaneCount() && s.distances[u].At? ==> u in done;
      forall v: nat | v < g.LaneCount() ensures TreeAt(g, start, s, UpTo(g.LaneCount()), v) {
        assert TreeAt(g, start, s, done, v);
      }
    } else {
      TurnKeeps(g, start, s, done);
      LanesBounded(g, done);
      LanesBounded(g, DoneAfter(s, done));
      RunFinishes(g, start, Turn(g, s), DoneAfter(s, done));
    }
  }

  lemma {:induction false} TreeFinishes(g: LaneGraph, start: LanePosition)
    requires g.Valid() && g.Holds(start)
    ensures Finished(g, start, Tree(g, start))
  {
    SeededKeeps(g, start);
    RunFinishes(g, start, Seeded(g, start), {});
  }

  // ---------- what the tree means ----------

  /** Distance `d` is exactly the cost of some walk of at least one hop ending on `v`. */
  ghost predicate WalkedTo(g: LaneGraph, start: LanePosition, hops: seq<Edge>, v: nat)
    requires g.Valid() && g.Holds(start)
  {
    hops != [] && IsWalk(g, start.lane, hops) && WalkEnd(start.lane, hops) == v
  }

  lemma {:induction false} ExtendWalk(g: LaneGraph, start: LanePosition, hops: seq<Edge>, e: Edge)
    requires g.Valid() && g.Holds(start) && IsWalk(g, start.lane, hops)
    requires e in g.adjacency[WalkEnd(start.lane, hops)]
    ensures WalkedTo(g, start, hops + [e], e.successor)
    ensures WalkCost(g, start, hops + [e]) ==
            (if hops == [] then g.Remaining(start)
             else WalkCost(g, start, hops) + g.lengths[WalkEnd(start.lane, hops)]) + e.gap
    ensures LanesOf(hops + [e]) == LanesOf(hops) + [e.successor]
  {
    assert (hops + [e])[..|hops|] == hops;
  }

  /** No walk is cheaper than the distance found, but for one SLACK per hop after the first. */
  lemma {:induction false} NoCheaperWalk(g: LaneGraph, start: LanePosition, s: Search, hops: seq<Edge>)
    requires Finished(g, start, s) && hops != [] && IsWalk(g, start.lane, hops)
    ensures var v := WalkEnd(start.lane, hops);
            && s.distances[v].At?
            && s.distances[v].metres <= WalkCost(g, start, hops) + (|hops| - 1) as real * SLACK
  {
    var prefix := hops[..|hops| - 1];
    if prefix != [] {
      NoCheaperWalk(g, start, s, prefix);
      assert AllRelaxed(g, s.distances, WalkEnd(start.lane, prefix));
    }
  }

  // ---------- the loops ----------

  /** Remove the least queue element. */
  method HeapPop(queue: seq<Entry>) returns (least: Entry, rest: seq<Entry>)
    requires queue != []
    ensures least == queue[LeastIndex(queue)] && rest == Without(queue, LeastIndex(queue))
    ensures forall e :: e in queue ==> AtMost(least, e)
    ensures multiset(queue) == multiset(rest) + multiset{least}
  {
    var i := 0;
    for j := 1 to |queue|
      invariant i == LeastIndex(queue[..j])
    {
      assert queue[..j + 1][..j] == queue[..j];
      if !AtMost(queue[i], queue[j]) {
        i := j;
      }
    }
    assert queue[..|queue|] == queue;
    least := queue[i];
    rest := queue[..i] + queue[i + 1..];
    assert queue == queue[..i] + [queue[i]] + queue[i + 1..];
  }

  /** Offer every continuation of `lane`, updating the two arrays in place and returning the longer queue. */
  method RelaxLane(g: LaneGraph, lane: nat, exit: real, slack: real,
                   dist: array<Distance>, pred: array<int>, queue: seq<Entry>) returns (queue': seq<Entry>)
    requires g.Valid() && Shaped(g, Search(dist[..], pred[..], queue)) && lane < g.LaneCount()
    modifies dist, pred
    ensures Search(dist[..], pred[..], queue') == Relax(g, lane, exit, slack, old(Search(dist[..], pred[..], queue)), 0)
  {
    queue' := queue;
    ghost var initial := Search(dist[..], pred[..], queue);
    for k := 0 to |g.adjacency[lane]|
      invariant Shaped(g, Search(dist[..], pred[..], queue'))
      invariant Relax(g, lane, exit, slack, Search(dist[..], pred[..], queue'), k)
                == Relax(g, lane, exit, slack, initial, 0)
    {
      var edge := g.adjacency[lane][k];
      var candidate := exit + edge.gap;
      ghost var before := Search(dist[..], pred[..], queue');
      if dist[edge.successor].Unreached? || candidate + slack < dist[edge.successor].metres {
        dist[edge.successor] := At(candidate);
        pred[edge.successor] := lane;
        queue' := queue' + [Entry(candidate, edge.successor)];
      }
      assert Search(dist[..], pred[..], queue') == RelaxOne(g, lane, exit, slack, before, k);
    }
  }

  /** Pop one entry and expand its lane unless the entry is stale. */
  method TakeTurn(g: LaneGraph, dist: array<Distance>, pred: array<int>, queue: seq<Entry>)
    returns (queue': seq<Entry>)
    requires g.Valid() && Shaped(g, Search(dist[..], pred[..], queue)) && queue != []
    requires forall e :: e in queue ==> dist[e.lane].At?
    modifies dist, pred
    ensures Search(dist[..], pred[..], queue') == Turn(g, old(Search(dist[..], pred[..], queue)))
  {
    var entry;
    entry, queue' := HeapPop(queue);
    assert entry in queue;
    if !(entry.metres > dist[entry.lane].metres + SLACK) {
      queue' := RelaxLane(g, entry.lane, entry.metres + g.lengths[entry.lane], SLACK, dist, pred, queue');
    }
  }

  method ComputeTree(g: LaneGraph, start: LanePosition) returns (distances: seq<Distance>, predecessors: seq<int>)
    requires g.Valid() && g.Holds(start)
    ensures distances == Tree(g, start).distances && predecessors == Tree(g, start).predecessors
  {
    var dist := new Distance[g.LaneCount()](_ => Unreached);
    var pred := new int[g.LaneCount()](_ => -1);
    assert Search(dist[..], pred[..], []) == Blank(g);
    var queue := RelaxLane(g, start.lane, g.Remaining(start), 0.0, dist, pred, []);
    SeededKeeps(g, start);
    ghost var done: set<nat> := {};
    while queue != []
      invariant Inv(g, start, Search(dist[..], pred[..], queue), done)
      invariant Run(g, start, Search(dist[..], pred[..], queue), done) == Tree(g, start)
      decreases g.LaneCount() - |done|, |queue|
    {
      ghost var before := Search(dist[..], pred[..], queue);
      TurnKeeps(g, start, before, done);
      LanesBounded(g, done);
      LanesBounded(g, DoneAfter(before, done));
      queue := TakeTurn(g, dist, pred, queue);
      done := DoneAfter(before, done);
    }
    distances := dist[..];
    predecessors := pred[..];
  }
}
