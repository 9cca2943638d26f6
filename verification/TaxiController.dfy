/** The taxi controller object: the rules of a frame carried out on its fields, and the finished score's rank. */
module TaxiController {
  import opened Prelude
  import opened Text
  import opened Ranking
  import opened Leaderboards
  import opened TaxiRules

  // ---------- a whole chunk of poses ----------

  /** A chunk of poses, up to the first that fails. */
  ghost function Advanced(c: Config, town: Town, t: Taxi, poses: seq<Pose>, dt: real, board: seq<ScoreEntry>,
                          limit: nat): (Taxi, bool)
    requires c.Valid() && town.Valid() && Inv(c, town, t) && dt >= 0.0
    requires forall i :: 0 <= i < |poses| ==> poses[i].Valid(town)
    decreases |poses|
  {
    if poses == [] then (t, true)
    else
      FramedKeeps(c, town, t, poses[0], dt, board, limit);
      var (u, ok) := Framed(c, town, t, poses[0], dt, board, limit);
      if ok then Advanced(c, town, u, poses[1..], dt, board, limit) else (u, false)
  }

  /** The states a chunk goes through. */
  ghost function Visited(c: Config, town: Town, t: Taxi, poses: seq<Pose>, dt: real, board: seq<ScoreEntry>,
                         limit: nat): (ts: seq<Taxi>)
    requires c.Valid() && town.Valid() && Inv(c, town, t) && dt >= 0.0
    requires forall i :: 0 <= i < |poses| ==> poses[i].Valid(town)
    ensures |ts| == |poses| + 1 && ts[0] == t
    decreases |poses|
  {
    if poses == [] then [t]
    else
      FramedKeeps(c, town, t, poses[0], dt, board, limit);
      [t] + Visited(c, town, Framed(c, town, t, poses[0], dt, board, limit).0, poses[1..], dt, board, limit)
  }

  /** A chunk that does not fail is a run of completed frames, so everything proved of runs holds of it. */
  lemma {:induction false} ChunkIsRun(c: Config, town: Town, t: Taxi, poses: seq<Pose>, dt: real,
                                      board: seq<ScoreEntry>, limit: nat)
    requires c.Valid() && town.Valid() && Inv(c, town, t) && dt >= 0.0
    requires forall i :: 0 <= i < |poses| ==> poses[i].Valid(town)
    requires Advanced(c, town, t, poses, dt, board, limit).1
    ensures var ts := Visited(c, town, t, poses, dt, board, limit);
            Trace(c, town, poses, dt, board, limit, ts)
              && ts[|poses|] == Advanced(c, town, t, poses, dt, board, limit).0
    decreases |poses|
  {
    if poses != [] {
      FramedKeeps(c, town, t, poses[0], dt, board, limit);
      var u := Framed(c, town, t, poses[0], dt, board, limit).0;
      ChunkIsRun(c, town, u, poses[1..], dt, board, limit);
      var ts := Visited(c, town, t, poses, dt, board, limit);
      var rest := Visited(c, town, u, poses[1..], dt, board, limit);
      assert ts == [t] + rest;
      forall i | 0 <= i < |poses| ensures Stepped(c, town, poses[i], dt, board, limit, ts, i) {
        if i > 0 {
          assert Stepped(c, town, poses[1..][i - 1], dt, board, limit, rest, i - 1);
          assert ts[i] == rest[i - 1] && ts[i + 1] == rest[i];
        }
      }
    }
  }

  /** A failed chunk still leaves a state that satisfies the invariant. */
  lemma {:induction false} AdvancedKeeps(c: Config, town: Town, t: Taxi, poses: seq<Pose>, dt: real,
                                         board: seq<ScoreEntry>, limit: nat)
    requires c.Valid() && town.Valid() && Inv(c, town, t) && dt >= 0.0
    requires forall i :: 0 <= i < |poses| ==> poses[i].Valid(town)
    ensures Inv(c, town, Advanced(c, town, t, poses, dt, board, limit).0)
    decreases |poses|
  {
    if poses != [] {
      FramedKeeps(c, town, t, poses[0], dt, board, limit);
      var (u, ok) := Framed(c, town, t, poses[0], dt, board, limit);
      if ok {
        AdvancedKeeps(c, town, u, poses[1..], dt, board, limit);
      }
    }
  }

  // ---------- where the recorded entry stands ----------

  /** The last place an entry equal to this one takes on a board. */
  function LastEqual(board: seq<ScoreEntry>, e: ScoreEntry): (i: nat)
    requires e in board
    ensures i < |board| && board[i] == e && forall j :: i < j < |board| ==> board[j] != e
  {
    if board[|board| - 1] == e then |board| - 1
    else
      assert board == board[..|board| - 1] + [board[|board| - 1]];
      LastEqual(board[..|board| - 1], e)
  }

  /** A newly recorded entry goes behind every entry it ties with, so of several equal ones it is the last. */
  lemma {:induction false} RecordedIsLastEqual(board: seq<ScoreEntry>, e: ScoreEntry, limit: nat)
    requires Ascending(board, ScoreKey) && |board| <= limit && limit > 0 && !Excluded(board, -e.score, limit, ScoreKey)
    ensures var recorded := Top(Place(board, e, ScoreKey), limit);
            e in recorded && LastEqual(recorded, e) == AheadOf(board, ScoreKey(e), ScoreKey)
  {
    AdmittedIsListed(board, e, limit, ScoreKey);
    PlaceAt(board, e, ScoreKey);
    AheadIsPrefix(board, ScoreKey(e), ScoreKey);
    var n := AheadOf(board, ScoreKey(e), ScoreKey);
    var placed := Place(board, e, ScoreKey);
    assert |board| == limit ==> !KeyLe(ScoreKey(board[limit - 1]), ScoreKey(e));
    var recorded := Top(placed, limit);
    assert n < |recorded| && recorded[n] == e;
    forall j | n < j < |recorded| ensures recorded[j] != e {
      assert recorded[j] == board[j - 1] && !KeyLe(ScoreKey(board[j - 1]), ScoreKey(e));
    }
  }

  /**
   * The rank announced when the game ends is the rank of the recorded entry, provided the board has not changed in
   * between and holds no entry stamped later.
   */
  lemma {:induction false} AnnouncedRankIsRecorded(t: Taxi, board: seq<ScoreEntry>, limit: nat, name: string,
                                                   stamp: int)
    requires Ascending(board, ScoreKey) && |board| <= limit && limit > 0
    requires NoLater(board, ScoreEntry(name, t.score, stamp), ScoreKey)
    ensures var e := ScoreEntry(name, t.score, stamp);
            var recorded := Submitted(board, e, limit, ScoreKey);
            Ended(t, board, limit).session == AwaitingName ==>
              e in recorded && Ended(t, board, limit).rank == Some(1 + LastEqual(recorded, e))
  {
    var e := ScoreEntry(name, t.score, stamp);
    if Ended(t, board, limit).session == AwaitingName {
      SubmittedIsTop(board, e, limit, ScoreKey);
      LevelIsAhead(board, e, ScoreKey);
      assert ScoreKey(e).cost == -t.score;
      RecordedIsLastEqual(board, e, limit);
    }
  }

  lemma {:induction false} AdmittedIsRecorded(rows: seq<ScoreEntry>, e: ScoreEntry, limit: nat)
    requires limit > 0 && !Excluded(ScoreBoard(rows, limit), -e.score, limit, ScoreKey)
    ensures e in Submitted(ScoreBoard(rows, limit), e, limit, ScoreKey)
  {
    var board := ScoreBoard(rows, limit);
    SortedAscends(Leaderboards.Eligible(rows, Scores), ScoreKey);
    SortedFixed(board, ScoreKey);
    SortedAppend(board, e, ScoreKey);
    AdmittedIsListed(board, e, limit, ScoreKey);
  }

  /** The board after a submission, and the place of the entry on it unless it was turned away. */
  ghost predicate Placed(before: seq<ScoreEntry>, e: ScoreEntry, limit: nat, board: seq<ScoreEntry>,
                         place: Option<nat>)
  {
    && board == Submitted(before, e, limit, ScoreKey)
    && if Excluded(before, -e.score, limit, ScoreKey) then place == None
       else e in board && place == Some(1 + LastEqual(board, e))
  }

  // ---------- the controller ----------

  datatype AdvanceError = NegativeInterval | NoDropoff

  datatype SubmitError = NotWaiting | Refused(entry: EntryError)

  datatype CoinError = NegativeCount

  class TaxiGameController {
    const config: Config
    const town: Town
    const store: HighScoreStore
    var phase: Phase
    var session: Session
    var score: int
    var global: real
    var remaining: Option<real>
    var target: nat
    var available: seq<nat>
    var pickup: Option<nat>
    var dropoff: Option<nat>
    var event: Option<Event>
    var bannerLeft: real
    var awarded: int
    var awardedTime: real
    var highScore: Option<int>
    var rank: Option<nat>
    var leaderboard: seq<ScoreEntry>

    ghost function View(): Taxi
      reads this
    {
      Taxi(phase, session, score, global, remaining, target, available, pickup, dropoff,
           event, bannerLeft, awarded, awardedTime, highScore, rank)
    }

    ghost function Board(): seq<ScoreEntry>
      reads store
    {
      ScoreBoard(store.rows, store.limit)
    }

    ghost predicate Valid()
      reads this
    {
      config.Valid() && town.Valid() && store.limit > 0 && Inv(config, town, View())
    }

    /** A new game at its first pose, with the first pickup already chosen. */
    constructor (config: Config, town: Town, store: HighScoreStore, p: Pose, first: nat)
      requires config.Valid() && town.Valid() && store.limit > 0 && p.Valid(town) && first in town.pool
      ensures Valid() && IsNew(config, View()) && this.config == config && this.town == town && this.store == store
    {
      this.config, this.town, this.store := config, town, store;
      phase, session, score, global, remaining := SeekingPickup, Playing, 0, config.globalTime, None;
      event, bannerLeft, awarded, awardedTime := None, 0.0, 0, 0.0;
      pickup, dropoff, rank, leaderboard := None, None, None, [];
      target := first;
      var pickups := Available(config, town, p.distance, {});
      available := if first in pickups then pickups else pickups + [first];
      new;
      var existing := store.Read();
      highScore := if existing != [] then Some(existing[0].score) else None;
      BegunKeeps(config, town, p, first, highScore);
    }

    method CollectCoins(count: int) returns (r: Result<(), CoinError>)
      modifies this`score
      ensures r.Err? <==> count < 0
      ensures score == if count < 0 then old(score) else old(score) + count * COIN_POINTS
    {
      if count < 0 {
        return Err(NegativeCount);
      }
      score := score + count * COIN_POINTS;
      r := Ok(());
    }

    method SetEvent(what: Event, points: int, time: real)
      modifies this`event, this`awarded, this`awardedTime, this`bannerLeft
      ensures View() == Announced(config, old(View()), what, points, time)
    {
      event := Some(what);
      awarded := points;
      awardedTime := time;
      bannerLeft := config.banner;
    }

    method StartFare(index: nat, p: Pose) returns (ok: bool)
      requires config.Valid()
      modifies this
      ensures (View(), ok) == Started(config, old(View()), index, p)
    {
      pickup := Some(index);
      var ride := SelectDropoff(config, p.fareSources, index, p.draw);
      if ride.None? {
        return false;
      }
      dropoff := Some(ride.value.to);
      target := ride.value.to;
      phase := ToDropoff;
      available := [];
      remaining := Some(Deadline(config, ride.value.distance));
      SetEvent(PickupComplete, 0, 0.0);
      ok := true;
    }

    method ActivateNextPickup(p: Pose)
      requires config.Valid() && town.Valid() && p.Valid(town)
      modifies this
      ensures View() == Seeking(config, town, old(View()), p)
    {
      var excluded := Just(pickup) + Just(dropoff);
      target := SelectPickup(config, town, p, excluded);
      available := Available(config, town, p.distance, excluded);
      if target !in available {
        available := available + [target];
      }
      phase := SeekingPickup;
      remaining := None;
    }

    method CompleteFare(p: Pose)
      requires config.Valid() && town.Valid() && p.Valid(town) && remaining.Some?
      modifies this
      ensures View() == Completed(config, town, old(View()), p)
    {
      var points := Award(config, remaining.value);
      score := score + points;
      global := global + config.dropoffBonus;
      SetEvent(FareComplete, points, config.dropoffBonus);
      ActivateNextPickup(p);
    }

    method ExpireFare(p: Pose)
      requires config.Valid() && town.Valid() && p.Valid(town)
      modifies this
      ensures View() == Expired(config, town, old(View()), p)
    {
      SetEvent(TimeExpired, 0, 0.0);
      ActivateNextPickup(p);
    }

    method EndGame()
      requires store.limit > 0
      modifies this
      ensures View() == Ended(old(View()), Board(), store.limit) && leaderboard == Board()
    {
      global := 0.0;
      ReadRank();
      session := if rank.Some? then AwaitingName else ShowingLeaderboard;
    }

    /** The stored board, its best score, and the rank the score would take on it. */
    method ReadRank()
      requires store.limit > 0
      modifies this`leaderboard, this`highScore, this`rank
      ensures leaderboard == Board() && highScore == BestScore(Board(), old(highScore))
      ensures rank == Qualifying(Board(), score, store.limit)
    {
      leaderboard := store.Read();
      if leaderboard != [] {
        highScore := Some(leaderboard[0].score);
      }
      rank := store.QualifyingRank(score);
    }

    /** The fare part of one frame. */
    method AdvanceFare(p: Pose, dt: real) returns (ok: bool)
      requires Valid() && p.Valid(town)
      modifies this
      ensures (View(), ok) == Fared(config, town, old(View()), p, dt)
    {
      if phase == SeekingPickup {
        var index := Collected(config, available, p.distance);
        if index.Some? {
          ok := StartFare(index.value, p);
          return;
        }
      } else if p.distance[target] <= config.dropoffRadius {
        CompleteFare(p);
      } else {
        remaining := Some(Max(0.0, remaining.value - dt));
        if remaining.value <= 0.0 {
          ExpireFare(p);
        }
      }
      ok := true;
    }

    method AdvanceBanner(dt: real)
      modifies this`bannerLeft
      ensures bannerLeft == Max(0.0, old(bannerLeft) - dt)
    {
      bannerLeft := Max(0.0, bannerLeft - dt);
    }

    method AdvanceClock(dt: real)
      requires store.limit > 0
      modifies this
      ensures View() == Clocked(old(View()), dt, Board(), store.limit)
    {
      global := Max(0.0, global - dt);
      if global <= 0.0 {
        EndGame();
      }
    }

    /** Coins and the banner of one frame. */
    method AdvanceCollecting(p: Pose, dt: real)
      modifies this
      ensures View() == Collecting(old(View()), p.coins, dt)
    {
      var collected := CollectCoins(p.coins);
      AdvanceBanner(dt);
    }

    method AdvanceFrame(p: Pose, dt: real) returns (ok: bool)
      requires Valid() && p.Valid(town) && dt >= 0.0
      modifies this
      ensures Valid() && (View(), ok) == Framed(config, town, old(View()), p, dt, Board(), store.limit)
    {
      FramedKeeps(config, town, View(), p, dt, Board(), store.limit);
      if session != Playing {
        return true;
      }
      CollectingKeeps(config, town, View(), p.coins, dt);
      AdvanceCollecting(p, dt);
      ok := AdvanceFare(p, dt);
      if ok {
        AdvanceClock(dt);
      }
    }

    /** A chunk of poses; an interval below zero or a fare without a dropoff is an error. */
    method AdvanceFrames(poses: seq<Pose>, dt: real) returns (r: Result<(), AdvanceError>)
      requires Valid() && forall i :: 0 <= i < |poses| ==> poses[i].Valid(town)
      modifies this
      ensures Valid()
      ensures dt < 0.0 ==> r == Err(NegativeInterval) && View() == old(View())
      ensures dt >= 0.0 ==>
                (View(), r) == (var (t, ok) := Advanced(config, town, old(View()), poses, dt, Board(), store.limit);
                                (t, if ok then Ok(()) else Err(NoDropoff)))
    {
      if dt < 0.0 {
        return Err(NegativeInterval);
      }
      ghost var whole := Advanced(config, town, View(), poses, dt, Board(), store.limit);
      assert poses[0..] == poses;
      for i := 0 to |poses|
        invariant Valid()
        invariant Advanced(config, town, View(), poses[i..], dt, Board(), store.limit) == whole
      {
        assert poses[i..][0] == poses[i] && poses[i..][1..] == poses[i + 1..];
        var ok := AdvanceFrame(poses[i], dt);
        if !ok {
          return Err(NoDropoff);
        }
      }
      r := Ok(());
    }

    /** Record a score and find the place of its entry, unless the name is not valid. */
    method RecordScore(name: string, stamp: int) returns (r: Result<(Option<nat>, seq<ScoreEntry>), EntryError>)
      requires store.limit > 0
      modifies store
      ensures r.Err? <==> PlayerName(name).Err?
      ensures r.Err? ==> r.error == BadName && store.rows == old(store.rows)
      ensures r.Ok? && score <= 0 ==> r.value == (None, old(Board())) && store.rows == old(store.rows)
      ensures r.Ok? && score > 0 ==>
                var entry := ScoreEntry(PlayerName(name).value, score, stamp);
                r.value.1 == store.rows && Placed(old(Board()), entry, store.limit, r.value.1, r.value.0)
    {
      var recorded := store.Record(name, score, stamp);
      if recorded.Err? {
        return Err(recorded.error);
      }
      var (inserted, board) := recorded.value;
      if inserted.Some? {
        AdmittedIsRecorded(old(store.rows), inserted.value, store.limit);
        r := Ok((Some(1 + LastEqual(board, inserted.value)), board));
      } else {
        r := Ok((None, board));
      }
    }

    /**
     * Record the finished score under a valid name; at any other time or under any other name it is an error that
     * changes nothing.
     */
    method SubmitHighScoreName(name: string, stamp: int) returns (r: Result<(), SubmitError>)
      requires Valid()
      modifies this, store
      ensures Valid()
      ensures old(session) != AwaitingName ==> r == Err(NotWaiting)
      ensures old(session) == AwaitingName && PlayerName(name).Err? ==> r == Err(Refused(BadName))
      ensures r.Err? ==>
                View() == old(View()) && store.rows == old(store.rows)
                && (old(session) != AwaitingName || PlayerName(name).Err?)
      ensures r.Ok? ==> View() == old(View()).(session := ShowingLeaderboard, highScore := highScore, rank := rank)
      ensures r.Ok? ==> highScore == BestScore(leaderboard, old(highScore))
      ensures r.Ok? && score > 0 ==>
                var entry := ScoreEntry(PlayerName(name).value, score, stamp);
                leaderboard == store.rows && Placed(old(Board()), entry, store.limit, leaderboard, rank)
    {
      if session != AwaitingName {
        return Err(NotWaiting);
      }
      var recorded := RecordScore(name, stamp);
      if recorded.Err? {
        return Err(Refused(recorded.error));
      }
      ShowRecorded(recorded.value.0, recorded.value.1);
      r := Ok(());
    }

    method ShowRecorded(place: Option<nat>, board: seq<ScoreEntry>)
      modifies this`rank, this`leaderboard, this`highScore, this`session
      ensures View() == old(View()).(session := ShowingLeaderboard, highScore := BestScore(board, old(highScore)),
                                     rank := place)
      ensures leaderboard == board
    {
      rank, leaderboard := place, board;
      if leaderboard != [] {
        highScore := Some(leaderboard[0].score);
      }
      session := ShowingLeaderboard;
    }
  }
}
