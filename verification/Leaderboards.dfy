/** The taxi and race leaderboards: truncated boards that stand for the whole history of submissions. */
module Leaderboards {
  import opened Prelude
  import opened Ranking
  import opened Text

  const LEADERBOARD_LIMIT: nat := 10

  /** A time stamp is its instant; stamps are taken when a result is recorded. */
  datatype ScoreEntry = ScoreEntry(name: string, score: int, stamp: int)

  function ScoreKey(e: ScoreEntry): Key { Key(-e.score, e.stamp) }

  // ---------- one board, as operations on values ----------

  /** A full board turns away a result that does not beat its last entry. */
  predicate Excluded<T>(board: seq<T>, cost: int, limit: nat, key: T -> Key) {
    |board| >= limit && board != [] && cost >= key(board[|board| - 1]).cost
  }

  /** The board after one submission. */
  function Submitted<T>(board: seq<T>, e: T, limit: nat, key: T -> Key): seq<T> {
    if Excluded(board, key(e).cost, limit, key) then Top(Sorted(board, key), limit)
    else Top(Sorted(board + [e], key), limit)
  }

  /** Entries that rank level with or ahead of a result of this cost, plus one. */
  function RankOf<T>(board: seq<T>, cost: int, key: T -> Key): nat {
    1 + |Level(board, cost, key)|
  }

  function Level<T>(board: seq<T>, cost: int, key: T -> Key): (r: seq<T>)
    ensures |r| <= |board|
  {
    if board == [] then []
    else
      Level(board[..|board| - 1], cost, key)
      + if key(board[|board| - 1]).cost <= cost then [board[|board| - 1]] else []
  }

  function Prospective<T>(board: seq<T>, cost: int, limit: nat, key: T -> Key): Option<nat> {
    if Excluded(board, cost, limit, key) then None else Some(RankOf(board, cost, key))
  }

  ghost predicate NoLater<T(!new)>(board: seq<T>, e: T, key: T -> Key) {
    forall x :: x in board ==> key(x).stamp <= key(e).stamp
  }

  lemma {:induction false} LevelIsAhead<T(!new)>(board: seq<T>, e: T, key: T -> Key)
    requires NoLater(board, e, key)
    ensures |Level(board, key(e).cost, key)| == AheadOf(board, key(e), key)
  {
    if board != [] {
      var init := board[..|board| - 1];
      assert board == init + [board[|board| - 1]];
      LevelIsAhead(init, e, key);
    }
  }

  /** On a sorted board the results level with or ahead of a cost come first. */
  lemma {:induction false} LevelIsPrefix<T(!new)>(board: seq<T>, cost: int, key: T -> Key)
    requires Ascending(board, key)
    ensures var n := |Level(board, cost, key)|;
            && (forall i :: 0 <= i < n ==> key(board[i]).cost <= cost)
            && (forall i :: n <= i < |board| ==> cost < key(board[i]).cost)
  {
    if board != [] {
      LevelIsPrefix(board[..|board| - 1], cost, key);
    }
  }

  /**
   * A submission keeps the board equal to the truncated sort of everything submitted to it, unless a full board's
   * last entry ties with a result stamped earlier than itself: the one case in which a result is turned away that
   * sorting would have kept.
   */
  lemma {:induction false} SubmittedIsTop<T(!new)>(board: seq<T>, e: T, limit: nat, key: T -> Key)
    requires Ascending(board, key) && |board| <= limit && limit > 0
    ensures (Submitted(board, e, limit, key) == Top(Place(board, e, key), limit))
            <==> !(|board| == limit && key(e).cost == key(board[limit - 1]).cost
                   && key(e).stamp < key(board[limit - 1]).stamp)
  {
    SortedFixed(board, key);
    SortedAppend(board, e, key);
    PlaceAt(board, e, key);
    AheadIsPrefix(board, key(e), key);
    var n := AheadOf(board, key(e), key);
    if Excluded(board, key(e).cost, limit, key) {
      var last := board[limit - 1];
      if KeyLe(key(last), key(e)) {
        assert n == limit;
        assert Top(Place(board, e, key), limit) == board;
      } else {
        assert n < limit;
        assert !KeyLe(key(board[n]), key(e));
        assert Place(board, e, key)[n] == e != board[n];
        assert Top(Place(board, e, key), limit)[n] == e;
      }
    }
  }

  /** The prospective rank is the position the recorded entry takes, everything else keeping its order. */
  lemma {:induction false} ProspectiveIsRecorded<T(!new)>(board: seq<T>, e: T, limit: nat, key: T -> Key)
    requires Ascending(board, key) && |board| <= limit && limit > 0 && NoLater(board, e, key)
    ensures match Prospective(board, key(e).cost, limit, key)
            case None => Submitted(board, e, limit, key) == board
            case Some(rank) =>
              && 1 <= rank <= limit && rank <= |board| + 1
              && Submitted(board, e, limit, key) == Top(board[..rank - 1] + [e] + board[rank - 1..], limit)
              && Submitted(board, e, limit, key)[rank - 1] == e
  {
    SortedFixed(board, key);
    SortedAppend(board, e, key);
    PlaceAt(board, e, key);
    AheadIsPrefix(board, key(e), key);
    LevelIsAhead(board, e, key);
    if !Excluded(board, key(e).cost, limit, key) {
      if |board| == limit {
        assert !KeyLe(key(board[limit - 1]), key(e));
      }
    }
  }

  /** A result that is not turned away is on the recorded board, whatever its time stamp. */
  lemma {:induction false} AdmittedIsListed<T(!new)>(board: seq<T>, e: T, limit: nat, key: T -> Key)
    requires Ascending(board, key) && |board| <= limit && limit > 0 && !Excluded(board, key(e).cost, limit, key)
    ensures e in Top(Place(board, e, key), limit)
  {
    PlaceAt(board, e, key);
    AheadIsPrefix(board, key(e), key);
    var n := AheadOf(board, key(e), key);
    assert |board| == limit ==> !KeyLe(key(board[limit - 1]), key(e));
    assert Top(Place(board, e, key), limit)[n] == e;
  }

  lemma {:induction false} AdmittedChanges<T(!new)>(board: seq<T>, e: T, limit: nat, key: T -> Key)
    requires Ascending(board, key) && |board| <= limit && limit > 0 && !Excluded(board, key(e).cost, limit, key)
    ensures Top(Place(board, e, key), limit) != board
  {
    PlaceAt(board, e, key);
    AheadIsPrefix(board, key(e), key);
    var n := AheadOf(board, key(e), key);
    assert |board| == limit ==> !KeyLe(key(board[limit - 1]), key(e));
    assert Top(Place(board, e, key), limit)[n] == e;
    if n < |board| {
      assert !KeyLe(key(board[n]), key(e));
    }
  }

  // ---------- the whole history ----------

  /** Results that may enter a board at all. */
  function Eligible<T>(history: seq<T>, accepted: T -> bool): seq<T> {
    if history == [] then []
    else
      Eligible(history[..|history| - 1], accepted)
      + if accepted(history[|history| - 1]) then [history[|history| - 1]] else []
  }

  /** The board kept by submitting a history in order. */
  function Kept<T>(history: seq<T>, limit: nat, key: T -> Key, accepted: T -> bool): seq<T> {
    if history == [] then []
    else
      var board := Kept(history[..|history| - 1], limit, key, accepted);
      var e := history[|history| - 1];
      if accepted(e) then Submitted(board, e, limit, key) else board
  }

  ghost predicate InTimeOrder<T(!new)>(history: seq<T>, key: T -> Key) {
    forall i, j :: 0 <= i < j < |history| ==> key(history[i]).stamp <= key(history[j]).stamp
  }

  lemma {:induction false} EligibleFrom<T(!new)>(history: seq<T>, accepted: T -> bool)
    ensures forall x :: x in Eligible(history, accepted) <==> x in history && accepted(x)
  {
    if history != [] {
      EligibleFrom(history[..|history| - 1], accepted);
      assert history == history[..|history| - 1] + [history[|history| - 1]];
    }
  }

  /** One submission to the truncated sort of `all` is the truncated sort with it appended. */
  lemma {:induction false} SubmitToTop<T(!new)>(all: seq<T>, e: T, limit: nat, key: T -> Key)
    requires limit > 0 && NoLater(all, e, key)
    ensures Submitted(Top(Sorted(all, key), limit), e, limit, key) == Top(Sorted(all + [e], key), limit)
  {
    var board := Top(Sorted(all, key), limit);
    SortedAscends(all, key);
    SortedAppend(all, e, key);
    TopPlace(Sorted(all, key), e, limit, key);
    SortedFrom(all, key);
    SubmittedIsTop(board, e, limit, key);
    assert |board| == limit ==> board[limit - 1] in Sorted(all, key);
  }

  lemma {:induction false} SortedFrom<T(!new)>(all: seq<T>, key: T -> Key)
    ensures forall x :: x in Sorted(all, key) ==> x in all
  {
    SortedPermutes(all, key);
    forall x | x in Sorted(all, key) ensures x in all {
      assert x in multiset(Sorted(all, key));
    }
  }

  /** Keeping only the truncated board is the same as sorting the whole history and truncating once. */
  lemma {:induction false} KeptIsTopOfHistory<T(!new)>(history: seq<T>, limit: nat, key: T -> Key, accepted: T -> bool)
    requires limit > 0 && InTimeOrder(history, key)
    ensures Kept(history, limit, key, accepted) == Top(Sorted(Eligible(history, accepted), key), limit)
  {
    if history != [] {
      var init, e := history[..|history| - 1], history[|history| - 1];
      var all := Eligible(init, accepted);
      KeptIsTopOfHistory(init, limit, key, accepted);
      if accepted(e) {
        EligibleFrom(init, accepted);
        forall x | x in all ensures key(x).stamp <= key(e).stamp {
          assert x in init;
          var i :| 0 <= i < |init| && init[i] == x;
          assert history[i] == x;
        }
        SubmitToTop(all, e, limit, key);
      } else {
        assert Eligible(history, accepted) == all;
      }
    }
  }

  // ---------- the taxi store ----------

  predicate Scores(e: ScoreEntry) { e.score > 0 }

  /** What a read makes of the rows in the file: non-positive scores are ignored, the rest sorted and truncated. */
  function ScoreBoard(rows: seq<ScoreEntry>, limit: nat): seq<ScoreEntry> {
    Top(Sorted(Eligible(rows, Scores), ScoreKey), limit)
  }

  class HighScoreStore {
    var rows: seq<ScoreEntry>
    const limit: nat

    constructor (limit: nat)
      ensures rows == [] && this.limit == limit
    {
      rows := [];
      this.limit := limit;
    }

    method Read() returns (board: seq<ScoreEntry>)
      ensures board == ScoreBoard(rows, limit)
    {
      var entries: seq<ScoreEntry> := [];
      for i := 0 to |rows|
        invariant entries == Eligible(rows[..i], Scores)
      {
        assert rows[..i + 1][..i] == rows[..i];
        if rows[i].score <= 0 {
          assert Eligible(rows[..i + 1], Scores) == entries;
          continue;
        }
        entries := entries + [rows[i]];
      }
      assert rows[..|rows|] == rows;
      board := Top(Sorted(entries, ScoreKey), limit);
    }

    method QualifyingRank(score: int) returns (rank: Option<nat>)
      requires limit > 0
      ensures rank == if score <= 0 then None else Prospective(ScoreBoard(rows, limit), -score, limit, ScoreKey)
    {
      if score <= 0 {
        return None;
      }
      var entries := Read();
      if |entries| >= limit && score <= entries[|entries| - 1].score {
        return None;
      }
      rank := Some(1 + |Level(entries, -score, ScoreKey)|);
    }

    /** Record a score under a valid name; under any other it is an error that changes nothing. */
    method Record(name: string, score: int, stamp: int)
      returns (r: Result<(Option<ScoreEntry>, seq<ScoreEntry>), EntryError>)
      requires limit > 0
      modifies this
      ensures PlayerName(name).Err? ==> r == Err(BadName) && rows == old(rows)
      ensures PlayerName(name).Ok? ==> r.Ok?
      ensures r.Ok? ==>
                var before := ScoreBoard(old(rows), limit);
                var entry := ScoreEntry(PlayerName(name).value, score, stamp);
                var (inserted, board) := r.value;
                && (score <= 0 ==> inserted == None && board == before && rows == old(rows))
                && (score > 0 ==> board == Submitted(before, entry, limit, ScoreKey) && rows == board)
                && (score > 0 ==>
                      inserted == if Prospective(before, -score, limit, ScoreKey).Some? then Some(entry) else None)
    {
      var normalized := PlayerName(name);
      if normalized.Err? {
        return Err(normalized.error);
      }
      if score <= 0 {
        var board := Read();
        return Ok((None, board));
      }
      var entry := ScoreEntry(normalized.value, score, stamp);
      var entries := Read();
      var inserted := Some(entry);
      if |entries| >= limit && score <= entries[|entries| - 1].score {
        inserted := None;
      } else {
        entries := entries + [entry];
      }
      rows := Top(Sorted(entries, ScoreKey), limit);
      r := Ok((inserted, rows));
    }
  }

  /** Writing a board and reading it back changes nothing. */
  lemma {:induction false} ReadBack(board: seq<ScoreEntry>, limit: nat)
    requires Ascending(board, ScoreKey) && |board| <= limit && forall e :: e in board ==> e.score > 0
    ensures ScoreBoard(board, limit) == board
  {
    EligibleAll(board, Scores);
    SortedFixed(board, ScoreKey);
  }

  lemma {:induction false} EligibleAll<T(!new)>(xs: seq<T>, accepted: T -> bool)
    requires forall x :: x in xs ==> accepted(x)
    ensures Eligible(xs, accepted) == xs
  {
    if xs != [] {
      assert xs == xs[..|xs| - 1] + [xs[|xs| - 1]];
      EligibleAll(xs[..|xs| - 1], accepted);
    }
  }

  lemma {:induction false} KeptEligible(history: seq<ScoreEntry>, limit: nat)
    requires Kept(history, limit, ScoreKey, Scores) == Top(Sorted(Eligible(history, Scores), ScoreKey), limit)
    ensures forall e :: e in Kept(history, limit, ScoreKey, Scores) ==> e.score > 0
  {
    SortedFrom(Eligible(history, Scores), ScoreKey);
    EligibleFrom(history, Scores);
    forall e | e in Kept(history, limit, ScoreKey, Scores) ensures e.score > 0 {
      assert e in Sorted(Eligible(history, Scores), ScoreKey);
      assert Scores(e);
    }
  }

  /** The file after recording a history, one `Record` after another. */
  function RowsAfter(history: seq<ScoreEntry>, limit: nat): seq<ScoreEntry> {
    if history == [] then []
    else
      var rows := RowsAfter(history[..|history| - 1], limit);
      var e := history[|history| - 1];
      if e.score > 0 then Submitted(ScoreBoard(rows, limit), e, limit, ScoreKey) else rows
  }

  /** From an empty file, recording results in time order keeps the best of all of them. */
  lemma {:induction false} TaxiBoardIsTopOfHistory(history: seq<ScoreEntry>, limit: nat)
    requires limit > 0 && InTimeOrder(history, ScoreKey)
    ensures ScoreBoard(RowsAfter(history, limit), limit) == Top(Sorted(Eligible(history, Scores), ScoreKey), limit)
    ensures RowsAfter(history, limit) == Kept(history, limit, ScoreKey, Scores)
  {
    if history != [] {
      TaxiBoardIsTopOfHistory(history[..|history| - 1], limit);
      var board := RowsAfter(history[..|history| - 1], limit);
    }
    KeptIsTopOfHistory(history, limit, ScoreKey, Scores);
    if history != [] {
      var init := history[..|history| - 1];
      KeptIsTopOfHistory(init, limit, ScoreKey, Scores);
    }
    KeptEligible(history, limit);
    SortedAscends(Eligible(history, Scores), ScoreKey);
    ReadBack(Kept(history, limit, ScoreKey, Scores), limit);
  }

  // ---------- the preview shown during name entry ----------

  /** The board drawn while the name is being typed: the result without a name at its prospective rank. */
  function Preview<T>(board: seq<T>, rank: nat, blank: T): seq<T>
    requires 1 <= rank <= |board| + 1
  {
    Top(board[..rank - 1] + [blank] + board[rank - 1..], LEADERBOARD_LIMIT)
  }

  /** It is the board that will be recorded, but for the nameless row itself. */
  lemma {:induction false} PreviewIsRecorded<T(!new)>(board: seq<T>, e: T, blank: T, key: T -> Key)
    requires Ascending(board, key) && |board| <= LEADERBOARD_LIMIT && NoLater(board, e, key)
    requires Prospective(board, key(e).cost, LEADERBOARD_LIMIT, key).Some?
    ensures var rank := Prospective(board, key(e).cost, LEADERBOARD_LIMIT, key).value;
            && 1 <= rank <= |board| + 1
            && rank <= |Submitted(board, e, LEADERBOARD_LIMIT, key)|
            && Preview(board, rank, blank) == Submitted(board, e, LEADERBOARD_LIMIT, key)[rank - 1 := blank]
  {
    ProspectiveIsRecorded(board, e, LEADERBOARD_LIMIT, key);
  }

  // ---------- the race store ----------

  datatype RaceEntry = RaceEntry(mapId: string, courseId: string, name: string, elapsed: int, stamp: int)

  type Scope = (string, string)

  function ScopeOf(e: RaceEntry): Scope { (e.mapId, e.courseId) }

  function RaceKey(e: RaceEntry): Key { Key(e.elapsed, e.stamp) }

  function InScope(rows: seq<RaceEntry>, s: Scope): seq<RaceEntry> {
    Eligible(rows, (e: RaceEntry) => ScopeOf(e) == s)
  }

  /** The board of one course. */
  function RaceBoard(rows: seq<RaceEntry>, s: Scope, limit: nat): seq<RaceEntry> {
    Top(Sorted(InScope(rows, s), RaceKey), limit)
  }

  predicate StringLess(a: string, b: string) {
    b != [] && (a == [] || a[0] < b[0] || (a[0] == b[0] && StringLess(a[1..], b[1..])))
  }

  predicate ScopeLess(a: Scope, b: Scope) {
    StringLess(a.0, b.0) || (a.0 == b.0 && StringLess(a.1, b.1))
  }

  function FileScope(scopes: seq<Scope>, s: Scope): (r: seq<Scope>)
    ensures forall x :: x in r <==> x in scopes || x == s
    ensures Distinct(scopes) && s !in scopes ==> Distinct(r)
  {
    if scopes == [] then [s]
    else
      assert scopes == [scopes[0]] + scopes[1..];
      if ScopeLess(s, scopes[0]) then [s] + scopes
      else
        var rest := FileScope(scopes[1..], s);
        assert Distinct(scopes) ==> scopes[0] !in scopes[1..];
        [scopes[0]] + rest
  }

  /** The courses that occur, once each, in order. */
  function Scopes(rows: seq<RaceEntry>): (r: seq<Scope>)
    ensures Distinct(r)
    ensures forall s :: s in r <==> exists e :: e in rows && ScopeOf(e) == s
  {
    if rows == [] then []
    else
      var init, last := rows[..|rows| - 1], rows[|rows| - 1];
      assert rows == init + [last];
      if ScopeOf(last) in Scopes(init) then Scopes(init) else FileScope(Scopes(init), ScopeOf(last))
  }

  function BoardsOf(scopes: seq<Scope>, rows: seq<RaceEntry>, limit: nat): seq<RaceEntry> {
    if scopes == [] then [] else RaceBoard(rows, scopes[0], limit) + BoardsOf(scopes[1..], rows, limit)
  }

  /** The file keeps only each course's board, course after course. */
  function Trimmed(rows: seq<RaceEntry>, limit: nat): seq<RaceEntry> {
    BoardsOf(Scopes(rows), rows, limit)
  }

  lemma {:induction false} EligibleSplit<T(!new)>(a: seq<T>, b: seq<T>, accepted: T -> bool)
    ensures Eligible(a + b, accepted) == Eligible(a, accepted) + Eligible(b, accepted)
    decreases |b|
  {
    if b == [] {
      assert a + b == a;
    } else {
      EligibleSplit(a, b[..|b| - 1], accepted);
      assert (a + b)[..|a + b| - 1] == a + b[..|b| - 1];
    }
  }

  lemma {:induction false} EligibleNone<T(!new)>(xs: seq<T>, accepted: T -> bool)
    requires forall x :: x in xs ==> !accepted(x)
    ensures Eligible(xs, accepted) == []
  {
    if xs != [] {
      assert xs == xs[..|xs| - 1] + [xs[|xs| - 1]];
      EligibleNone(xs[..|xs| - 1], accepted);
    }
  }

  lemma {:induction false} RaceBoardScoped(rows: seq<RaceEntry>, s: Scope, limit: nat)
    ensures forall e :: e in RaceBoard(rows, s, limit) ==> ScopeOf(e) == s
  {
    var accepted := (e: RaceEntry) => ScopeOf(e) == s;
    EligibleFrom(rows, accepted);
    SortedFrom(InScope(rows, s), RaceKey);
    forall e | e in RaceBoard(rows, s, limit) ensures ScopeOf(e) == s {
      assert e in Sorted(InScope(rows, s), RaceKey);
      assert accepted(e);
    }
  }

  /** Reading one course out of the concatenated boards gives that course's board. */
  lemma {:induction false} InScopeOfBoards(scopes: seq<Scope>, rows: seq<RaceEntry>, s: Scope, limit: nat)
    requires Distinct(scopes)
    ensures InScope(BoardsOf(scopes, rows, limit), s) == if s in scopes then RaceBoard(rows, s, limit) else []
  {
    if scopes != [] {
      var here := RaceBoard(rows, scopes[0], limit);
      var accepted := (e: RaceEntry) => ScopeOf(e) == s;
      InScopeOfBoards(scopes[1..], rows, s, limit);
      EligibleSplit(here, BoardsOf(scopes[1..], rows, limit), accepted);
      RaceBoardScoped(rows, scopes[0], limit);
      assert scopes == [scopes[0]] + scopes[1..];
      if scopes[0] == s {
        EligibleAll(here, accepted);
        assert s !in scopes[1..];
      } else {
        EligibleNone(here, accepted);
      }
    }
  }

  // ---------- what a board lists ----------

  lemma {:induction false} TopIsBest<T(!new)>(xs: seq<T>, limit: nat, key: T -> Key)
    ensures var b := Top(Sorted(xs, key), limit);
            && |b| <= limit && Ascending(b, key) && (forall e :: e in b ==> e in xs)
            && (forall e, x :: e in xs && e !in b && x in b ==> KeyLe(key(x), key(e)))
            && (forall e :: e in xs && e !in b ==> |b| == limit)
  {
    var all := Sorted(xs, key);
    SortedAscends(xs, key);
    SortedFrom(xs, key);
    SortedPermutes(xs, key);
    forall e | e in xs ensures e in all {
      assert e in multiset(xs) && multiset(all) == multiset(xs);
    }
  }

  /** The board of the taxi game: the best scores first, of equals the earlier one, and none better left out. */
  lemma {:induction false} ScoreBoardIs(rows: seq<ScoreEntry>, limit: nat)
    ensures var b := ScoreBoard(rows, limit);
            && |b| <= limit && (forall e :: e in b ==> e in rows && e.score > 0)
            && (forall i, j :: 0 <= i < j < |b| ==>
                  b[i].score > b[j].score || (b[i].score == b[j].score && b[i].stamp <= b[j].stamp))
            && (forall e :: e in rows && e.score > 0 && e !in b ==>
                  |b| == limit && forall x :: x in b ==> x.score >= e.score)
  {
    var counted := Eligible(rows, Scores);
    EligibleFrom(rows, Scores);
    TopIsBest(counted, limit, ScoreKey);
    var b := ScoreBoard(rows, limit);
    forall i, j | 0 <= i < j < |b|
      ensures b[i].score > b[j].score || (b[i].score == b[j].score && b[i].stamp <= b[j].stamp)
    {
      assert KeyLe(ScoreKey(b[i]), ScoreKey(b[j]));
    }
    forall e, x | e in rows && e.score > 0 && e !in b && x in b ensures x.score >= e.score {
      assert e in counted;
      assert KeyLe(ScoreKey(x), ScoreKey(e));
    }
  }

  /** The board of a course: its fastest times first, of equals the earlier one, and none faster left out. */
  lemma {:induction false} RaceBoardIs(rows: seq<RaceEntry>, s: Scope, limit: nat)
    ensures var b := RaceBoard(rows, s, limit);
            && |b| <= limit && (forall e :: e in b ==> e in rows && e.mapId == s.0 && e.courseId == s.1)
            && (forall i, j :: 0 <= i < j < |b| ==>
                  b[i].elapsed < b[j].elapsed || (b[i].elapsed == b[j].elapsed && b[i].stamp <= b[j].stamp))
            && (forall e :: e in rows && e.mapId == s.0 && e.courseId == s.1 && e !in b ==>
                  |b| == limit && forall x :: x in b ==> x.elapsed <= e.elapsed)
  {
    var accepted := (e: RaceEntry) => ScopeOf(e) == s;
    EligibleFrom(rows, accepted);
    TopIsBest(InScope(rows, s), limit, RaceKey);
    var b := RaceBoard(rows, s, limit);
    forall i, j | 0 <= i < j < |b|
      ensures b[i].elapsed < b[j].elapsed || (b[i].elapsed == b[j].elapsed && b[i].stamp <= b[j].stamp)
    {
      assert KeyLe(RaceKey(b[i]), RaceKey(b[j]));
    }
    forall e | e in rows && e.mapId == s.0 && e.courseId == s.1 && e !in b ensures e in InScope(rows, s) {
      assert accepted(e);
    }
    forall e, x | e in InScope(rows, s) && e !in b && x in b ensures x.elapsed <= e.elapsed {
      assert KeyLe(RaceKey(x), RaceKey(e));
    }
    forall e | e in b ensures e.mapId == s.0 && e.courseId == s.1 {
      assert accepted(e);
    }
  }

  // ---------- the order of the race file ----------

  /** Two texts first differ after `i` characters, or the first one ends there. */
  predicate FirstDiffer(a: string, b: string, i: nat) {
    i <= |a| && i < |b| && a[..i] == b[..i] && (i == |a| || a[i] < b[i])
  }

  lemma {:induction false} StringLessIs(a: string, b: string)
    ensures StringLess(a, b) <==> exists i :: FirstDiffer(a, b, i)
  {
    if a != [] && b != [] && a[0] == b[0] {
      StringLessIs(a[1..], b[1..]);
      forall i: nat | FirstDiffer(a[1..], b[1..], i) ensures FirstDiffer(a, b, i + 1) {
        assert a[..i + 1] == [a[0]] + a[1..][..i] && b[..i + 1] == [b[0]] + b[1..][..i];
      }
      forall i: nat | FirstDiffer(a, b, i) ensures i > 0 && FirstDiffer(a[1..], b[1..], i - 1) {
        assert a[1..][..i - 1] == a[..i][1..] && b[1..][..i - 1] == b[..i][1..];
      }
    } else if b != [] {
      assert a == [] || a[0] < b[0] ==> FirstDiffer(a, b, 0);
      assert forall i: nat :: FirstDiffer(a, b, i) && i > 0 ==> a[..i][0] == b[..i][0];
    }
  }

  lemma {:induction false} StringOrder(a: string, b: string, c: string)
    ensures StringLess(a, b) && StringLess(b, c) ==> StringLess(a, c)
    ensures a == b || StringLess(a, b) || StringLess(b, a)
    ensures !StringLess(a, a)
  {
    if a != [] {
      var d, e := if b == [] then [] else b[1..], if c == [] then [] else c[1..];
      StringOrder(a[1..], d, e);
      assert b != [] ==> a == [a[0]] + a[1..] && b == [b[0]] + b[1..];
    }
  }

  lemma {:induction false} ScopeOrder(a: Scope, b: Scope, c: Scope)
    ensures ScopeLess(a, b) && ScopeLess(b, c) ==> ScopeLess(a, c)
    ensures a == b || ScopeLess(a, b) || ScopeLess(b, a)
  {
    StringOrder(a.0, b.0, c.0);
    StringOrder(a.1, b.1, c.1);
    StringOrder(b.0, c.0, a.0);
  }

  /** Maps ascend, and so do the courses of a map. */
  ghost predicate ScopesAscend(scopes: seq<Scope>) {
    forall i, j :: 0 <= i < j < |scopes| ==> ScopeLess(scopes[i], scopes[j])
  }

  lemma {:induction false} FileScopeAscends(scopes: seq<Scope>, s: Scope)
    requires ScopesAscend(scopes) && s !in scopes
    ensures ScopesAscend(FileScope(scopes, s))
  {
    if scopes != [] {
      if ScopeLess(s, scopes[0]) {
        forall j | 1 <= j < |scopes| ensures ScopeLess(s, scopes[j]) {
          ScopeOrder(s, scopes[0], scopes[j]);
        }
      } else {
        FileScopeAscends(scopes[1..], s);
        ScopeOrder(s, scopes[0], s);
        forall x | x in FileScope(scopes[1..], s) ensures ScopeLess(scopes[0], x) {
          if x != s {
            var j :| 0 <= j < |scopes[1..]| && scopes[1..][j] == x;
            assert scopes[j + 1] == x;
          }
        }
      }
    }
  }

  lemma {:induction false} ScopesOrdered(rows: seq<RaceEntry>)
    ensures ScopesAscend(Scopes(rows))
  {
    if rows != [] {
      ScopesOrdered(rows[..|rows| - 1]);
      if ScopeOf(rows[|rows| - 1]) !in Scopes(rows[..|rows| - 1]) {
        FileScopeAscends(Scopes(rows[..|rows| - 1]), ScopeOf(rows[|rows| - 1]));
      }
    }
  }

  /** One row may stand before the other in the file. */
  predicate InFileOrder(a: RaceEntry, b: RaceEntry) {
    if a.mapId == b.mapId then a.courseId == b.courseId || StringLess(a.courseId, b.courseId)
    else StringLess(a.mapId, b.mapId)
  }

  ghost predicate AllBefore(xs: seq<RaceEntry>, ys: seq<RaceEntry>) {
    forall e, x :: e in xs && x in ys ==> InFileOrder(e, x)
  }

  ghost predicate FileOrdered(file: seq<RaceEntry>) {
    forall i, j :: 0 <= i < j < |file| ==> InFileOrder(file[i], file[j])
  }

  lemma {:induction false} InOrderIs(a: RaceEntry, b: RaceEntry)
    requires ScopeOf(a) == ScopeOf(b) || ScopeLess(ScopeOf(a), ScopeOf(b))
    ensures InFileOrder(a, b)
  {
    StringOrder(a.mapId, a.mapId, a.mapId);
  }

  lemma {:induction false} BoardsOrdered(scopes: seq<Scope>, rows: seq<RaceEntry>, limit: nat)
    requires ScopesAscend(scopes)
    ensures var file := BoardsOf(scopes, rows, limit);
            (forall e :: e in file ==> ScopeOf(e) in scopes) && FileOrdered(file)
  {
    if scopes != [] {
      var here, rest := RaceBoard(rows, scopes[0], limit), BoardsOf(scopes[1..], rows, limit);
      BoardsOrdered(scopes[1..], rows, limit);
      RaceBoardScoped(rows, scopes[0], limit);
      assert AllBefore(here, rest) by {
        forall e, x | e in here && x in rest ensures InFileOrder(e, x) {
          var j :| 0 <= j < |scopes[1..]| && scopes[1..][j] == ScopeOf(x);
          assert scopes[j + 1] == ScopeOf(x);
          InOrderIs(e, x);
        }
      }
      assert AllBefore(here, here) by {
        forall e, x | e in here && x in here ensures InFileOrder(e, x) {
          InOrderIs(e, x);
        }
      }
      InOrderJoined(here, rest);
    }
  }

  lemma {:induction false} InOrderJoined(here: seq<RaceEntry>, rest: seq<RaceEntry>)
    requires AllBefore(here, here) && AllBefore(here, rest) && FileOrdered(rest)
    ensures FileOrdered(here + rest)
  {
  }

  /** The rows of the trimmed file are grouped by map and course, in ascending order. */
  lemma {:induction false} FileIsOrdered(rows: seq<RaceEntry>, limit: nat)
    ensures FileOrdered(Trimmed(rows, limit))
  {
    ScopesOrdered(rows);
    BoardsOrdered(Scopes(rows), rows, limit);
    assert Trimmed(rows, limit) == BoardsOf(Scopes(rows), rows, limit);
  }

  /** Trimming the file changes no course's board. */
  lemma {:induction false} TrimKeepsBoards(rows: seq<RaceEntry>, s: Scope, limit: nat)
    ensures RaceBoard(Trimmed(rows, limit), s, limit) == RaceBoard(rows, s, limit)
  {
    var accepted := (e: RaceEntry) => ScopeOf(e) == s;
    InScopeOfBoards(Scopes(rows), rows, s, limit);
    if s in Scopes(rows) {
      var board := RaceBoard(rows, s, limit);
      SortedAscends(InScope(rows, s), RaceKey);
      SortedFixed(board, RaceKey);
    } else {
      forall e | e in rows ensures !accepted(e) {
        assert ScopeOf(e) != s;
      }
      EligibleNone(rows, accepted);
    }
  }

  lemma {:induction false} InScopeAppend(rows: seq<RaceEntry>, e: RaceEntry, s: Scope)
    ensures InScope(rows + [e], s) == InScope(rows, s) + if ScopeOf(e) == s then [e] else []
  {
    assert (rows + [e])[..|rows|] == rows;
  }

  /** The file after one more positive time: trimmed to the boards, with the time unless its board turned it away. */
  function RaceRecorded(rows: seq<RaceEntry>, e: RaceEntry, limit: nat): seq<RaceEntry> {
    Trimmed(if Excluded(RaceBoard(rows, ScopeOf(e), limit), e.elapsed, limit, RaceKey) then rows else rows + [e], limit)
  }

  /** One time changes its own course's board as submitted, and no other. */
  lemma {:induction false} RaceRecordedBoard(rows: seq<RaceEntry>, e: RaceEntry, s: Scope, limit: nat)
    requires limit > 0
    ensures var board := RaceBoard(rows, s, limit);
            && Ascending(board, RaceKey)
            && RaceBoard(RaceRecorded(rows, e, limit), s, limit)
               == (if ScopeOf(e) == s then Submitted(board, e, limit, RaceKey) else board)
            && Submitted(board, e, limit, RaceKey)
               == (if Excluded(board, e.elapsed, limit, RaceKey) then board else Top(Place(board, e, RaceKey), limit))
  {
    var board := RaceBoard(rows, s, limit);
    SortedAscends(InScope(rows, s), RaceKey);
    SortedFixed(board, RaceKey);
    SortedAppend(board, e, RaceKey);
    TrimKeepsBoards(rows, s, limit);
    TrimKeepsBoards(rows + [e], s, limit);
    InScopeAppend(rows, e, s);
    if ScopeOf(e) == s {
      SortedAppend(InScope(rows, s), e, RaceKey);
      TopPlace(Sorted(InScope(rows, s), RaceKey), e, limit, RaceKey);
    } else {
      assert InScope(rows + [e], s) == InScope(rows, s);
    }
  }

  /** In the file `after`, the board of the entry's course is as submitted and every other course's board as before. */
  ghost predicate BoardsAfter(before: seq<RaceEntry>, e: RaceEntry, limit: nat, after: seq<RaceEntry>) {
    && RaceBoard(after, ScopeOf(e), limit) == Submitted(RaceBoard(before, ScopeOf(e), limit), e, limit, RaceKey)
    && (forall s :: s != ScopeOf(e) ==> RaceBoard(after, s, limit) == RaceBoard(before, s, limit))
  }

  lemma {:induction false} RaceRecordedBoards(rows: seq<RaceEntry>, e: RaceEntry, limit: nat)
    requires limit > 0
    ensures BoardsAfter(rows, e, limit, RaceRecorded(rows, e, limit))
  {
    forall s ensures RaceBoard(RaceRecorded(rows, e, limit), s, limit)
                     == if ScopeOf(e) == s then Submitted(RaceBoard(rows, s, limit), e, limit, RaceKey)
                        else RaceBoard(rows, s, limit)
    {
      RaceRecordedBoard(rows, e, s, limit);
    }
  }

  /** The file after recording a history of times on any courses. */
  function RaceRowsAfter(history: seq<RaceEntry>, limit: nat): seq<RaceEntry> {
    if history == [] then []
    else
      var rows := RaceRowsAfter(history[..|history| - 1], limit);
      var e := history[|history| - 1];
      if e.elapsed > 0 then RaceRecorded(rows, e, limit) else rows
  }

  /** Times that count on one course. */
  function CountsOn(s: Scope): RaceEntry -> bool {
    (e: RaceEntry) => ScopeOf(e) == s && e.elapsed > 0
  }

  lemma {:induction false} RaceBoardIsKept(history: seq<RaceEntry>, s: Scope, limit: nat)
    requires limit > 0
    ensures RaceBoard(RaceRowsAfter(history, limit), s, limit) == Kept(history, limit, RaceKey, CountsOn(s))
  {
    if history != [] {
      var init, e := history[..|history| - 1], history[|history| - 1];
      RaceBoardIsKept(init, s, limit);
      RaceRecordedBoard(RaceRowsAfter(init, limit), e, s, limit);
    }
  }

  /**
   * From an empty file, recording times in time order, the courses taking turns in any way, leaves on each course's
   * board the best of all its positive times.
   */
  lemma {:induction false} RaceBoardsAreTopOfHistory(history: seq<RaceEntry>, s: Scope, limit: nat)
    requires limit > 0 && InTimeOrder(history, RaceKey)
    ensures RaceBoard(RaceRowsAfter(history, limit), s, limit)
            == Top(Sorted(Eligible(history, CountsOn(s)), RaceKey), limit)
  {
    RaceBoardIsKept(history, s, limit);
    KeptIsTopOfHistory(history, limit, RaceKey, CountsOn(s));
  }

  /** The entry a submission asks to record, once its identifiers and then its name are valid. */
  function Validated(mapId: string, courseId: string, name: string, elapsed: int, stamp: int)
    : Result<RaceEntry, EntryError>
  {
    match ScopeId(mapId)
    case Err(e) => Err(e)
    case Ok(onMap) =>
      match ScopeId(courseId)
      case Err(e) => Err(e)
      case Ok(onCourse) =>
        match PlayerName(name)
        case Err(e) => Err(e)
        case Ok(player) => Ok(RaceEntry(onMap, onCourse, player, elapsed, stamp))
  }

  /** The entry itself, unless it is not positive or its course's board turns it away. */
  function Inserted(rows: seq<RaceEntry>, e: RaceEntry, limit: nat): Option<RaceEntry> {
    if e.elapsed <= 0 || Excluded(RaceBoard(rows, ScopeOf(e), limit), e.elapsed, limit, RaceKey) then None else Some(e)
  }

  /** What recording an entry does to the file and reports; only positive times are recorded at all. */
  ghost predicate Recorded(before: seq<RaceEntry>, after: seq<RaceEntry>, limit: nat, e: RaceEntry,
                           inserted: Option<RaceEntry>, board: seq<RaceEntry>)
  {
    && board == RaceBoard(after, ScopeOf(e), limit)
    && inserted == Inserted(before, e, limit)
    && (e.elapsed <= 0 ==> after == before)
    && (e.elapsed > 0 ==> after == RaceRecorded(before, e, limit) && BoardsAfter(before, e, limit, after))
  }

  /** Recording reports an entry exactly when it changes the board of its course. */
  lemma {:induction false} ReportedIfChanged(before: seq<RaceEntry>, after: seq<RaceEntry>, limit: nat, e: RaceEntry,
                                             inserted: Option<RaceEntry>, board: seq<RaceEntry>)
    requires limit > 0 && Recorded(before, after, limit, e, inserted, board)
    ensures inserted == if board == RaceBoard(before, ScopeOf(e), limit) then None else Some(e)
  {
    var kept := RaceBoard(before, ScopeOf(e), limit);
    if e.elapsed > 0 {
      RaceRecordedBoard(before, e, ScopeOf(e), limit);
      if inserted.Some? {
        AdmittedChanges(kept, e, limit, RaceKey);
      }
    }
  }

  class RaceTimeStore {
    var rows: seq<RaceEntry>
    const limit: nat

    constructor (limit: nat)
      ensures rows == [] && this.limit == limit
    {
      rows := [];
      this.limit := limit;
    }

    method Read(mapId: string, courseId: string) returns (board: seq<RaceEntry>)
      ensures board == RaceBoard(rows, (mapId, courseId), limit)
    {
      board := RaceBoard(rows, (mapId, courseId), limit);
    }

    method QualifyingRank(mapId: string, courseId: string, elapsed: int) returns (rank: Option<nat>)
      requires limit > 0
      ensures rank == if elapsed <= 0 then None
                      else Prospective(RaceBoard(rows, (mapId, courseId), limit), elapsed, limit, RaceKey)
    {
      if elapsed <= 0 {
        return None;
      }
      var board := Read(mapId, courseId);
      if |board| >= limit && elapsed >= board[|board| - 1].elapsed {
        return None;
      }
      rank := Some(1 + |Level(board, elapsed, RaceKey)|);
    }

    /** Recording in one course updates its board as submitted and leaves every other course's board alone. */
    method Record(mapId: string, courseId: string, name: string, elapsed: int, stamp: int)
      returns (r: Result<(Option<RaceEntry>, seq<RaceEntry>), EntryError>)
      requires limit > 0
      modifies this
      ensures match Validated(mapId, courseId, name, elapsed, stamp)
              case Err(e) => r == Err(e) && rows == old(rows)
              case Ok(entry) => r.Ok? && Recorded(old(rows), rows, limit, entry, r.value.0, r.value.1)
    {
      var entry := Validated(mapId, courseId, name, elapsed, stamp);
      if entry.Err? {
        return Err(entry.error);
      }
      var inserted, board := RecordEntry(entry.value);
      r := Ok((inserted, board));
    }

    method RecordEntry(entry: RaceEntry) returns (inserted: Option<RaceEntry>, board: seq<RaceEntry>)
      requires limit > 0
      modifies this
      ensures Recorded(old(rows), rows, limit, entry, inserted, board)
    {
      var entries := rows;
      board := RaceBoard(entries, ScopeOf(entry), limit);
      if entry.elapsed <= 0 {
        return None, board;
      }
      inserted := Some(entry);
      if |board| >= limit && entry.elapsed >= board[|board| - 1].elapsed {
        inserted := None;
      } else {
        entries := entries + [entry];
      }
      assert inserted.None? <==> Excluded(board, entry.elapsed, limit, RaceKey);
      assert Trimmed(entries, limit) == RaceRecorded(rows, entry, limit);
      RaceRecordedBoards(rows, entry, limit);
      rows := Trimmed(entries, limit);
      board := RaceBoard(rows, ScopeOf(entry), limit);
    }
  }

  // ---------- the rank announced after recording a race ----------

  /** Position of the first entry equal to `e`, counting from zero. */
  function FirstEqual(board: seq<RaceEntry>, e: RaceEntry): (i: nat)
    requires e in board
    ensures i < |board| && board[i] == e && forall j :: 0 <= j < i ==> board[j] != e
  {
    if board[0] == e then 0 else 1 + FirstEqual(board[1..], e)
  }

  /**
   * The rank announced after recording a race time looks the entry up by equality. It is the rank promised before
   * exactly when no identical entry, down to its time stamp, is already on the board.
   */
  lemma {:induction false} RecordedRankAgrees(board: seq<RaceEntry>, e: RaceEntry, limit: nat)
    requires Ascending(board, RaceKey) && |board| <= limit && limit > 0 && NoLater(board, e, RaceKey)
    requires Prospective(board, e.elapsed, limit, RaceKey).Some?
    ensures var after := Submitted(board, e, limit, RaceKey);
            e in after
            && (1 + FirstEqual(after, e) == Prospective(board, e.elapsed, limit, RaceKey).value <==> e !in board)
  {
    ProspectiveIsRecorded(board, e, limit, RaceKey);
    var rank := Prospective(board, e.elapsed, limit, RaceKey).value;
    var after := Submitted(board, e, limit, RaceKey);
    assert after[rank - 1] == e;
    assert forall i :: 0 <= i < rank - 1 ==> after[i] == board[i];
    LevelIsAhead(board, e, RaceKey);
    AheadIsPrefix(board, RaceKey(e), RaceKey);
    if e in board {
      var i :| 0 <= i < |board| && board[i] == e;
      assert i < rank - 1;
    }
  }

  /** Such a repeat exists: the same time by the same player within one second. */
  lemma {:induction false} RepeatedTimeMisranked()
    ensures var e := RaceEntry("map", "course", "A", 5, 7);
            && Prospective([e], 5, LEADERBOARD_LIMIT, RaceKey) == Some(2)
            && Submitted([e], e, LEADERBOARD_LIMIT, RaceKey) == [e, e]
            && FirstEqual([e, e], e) == 0
  {
    var e := RaceEntry("map", "course", "A", 5, 7);
    assert [e] + [e] == [e, e];
    SortedFixed([e, e], RaceKey);
  }
}
