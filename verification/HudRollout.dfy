/**
 * The rollout of a selected game: how its blocks are numbered and end, and which frame the HUD takes for the newest.
 */
module HudRollout {
  import opened Prelude
  import opened HudState
  import opened HudProtocol
  import opened HudLoading

  // ---------- choosing a game ----------

  /** A race goes on a course of its map and any other game on none; the map is loaded only for a choice in order. */
  lemma {:induction false} ChoiceInOrder(game: Choice, sceneLoads: bool)
    ensures Selectable(game, sceneLoads).Ok?
            <==> sceneLoads && if game.race then exists c :: c in game.courses && game.course == Some(c)
                               else game.course == None
    ensures Selectable(game, sceneLoads) == Err(SceneFailed) <==> Selectable(game, true).Ok? && !sceneLoads
    ensures Selectable(game, sceneLoads) == Err(UnknownCourse) ==> game.race
    ensures Selectable(game, sceneLoads) == Err(CourseNotAllowed) ==> !game.race
  {
    assert game.race && game.course.Some? && game.course.value in game.courses ==>
        exists c :: c in game.courses && game.course == Some(c);
  }

  // ---------- numbering blocks ----------

  /** The model after so many steps without a restart, some of which make a block. */
  function Steps(m: Model, active: seq<bool>): Model {
    if active == [] then m else Stepped(Steps(m, active[..|active| - 1]), false, active[|active| - 1])
  }

  function Blocks(active: seq<bool>): nat {
    if active == [] then 0 else Blocks(active[..|active| - 1]) + if active[|active| - 1] then 1 else 0
  }

  /**
   * In a rollout from its reset the blocks are numbered from 0 and published under the epoch of the rollout with the
   * frames in order; a step that makes none publishes under -1; and the rollout ends with its last block, if it has
   * one.
   */
  lemma {:induction false} BlocksAreNumbered(m: Model, active: seq<bool>, next: bool, keys: seq<int>)
    requires m.gameSelected
    ensures var start := ModelReset(m);
            var now := Steps(start, active);
            && now == m.(epoch := m.epoch + 1, blocks := Blocks(active), finished := now.finished)
            && (now.finished <==> active != [] && m.totalBlocks.Some? && Blocks(active) >= m.totalBlocks.value)
            && |StepPosts(now, false, next, keys)| == 1
            && var post := StepPosts(now, false, next, keys)[0];
               post.PublishFrames? && |post.frames| == |keys|
               && forall i :: 0 <= i < |keys| ==>
                    post.frames[i] == Frame(keys[i], m.epoch + 1, if next then Blocks(active) else -1, m.selection)
  {
    if active != [] {
      BlocksAreNumbered(m, active[..|active| - 1], next, keys);
    }
  }

  /** A step asked to restart first begins a new rollout and tells the HUD so. */
  lemma {:induction false} RestartBegins(m: Model, active: bool, keys: seq<int>)
    requires m.gameSelected
    ensures Stepped(m, true, active) == Steps(ModelReset(m), [active])
    ensures StepPosts(m, true, active, keys)
            == [ResetHud(m.epoch + 1)] + StepPosts(ModelReset(m), false, active, keys)
  {
    assert [active][..0] == [];
    assert Steps(ModelReset(m), []) == ModelReset(m);
  }

  // ---------- the newest frame ----------

  /** A message that brings a block of frames, the last of which is this one. */
  predicate Brings(m: UiMessage, f: Frame) {
    m.PublishFrames? && m.frames != [] && m.frames[|m.frames| - 1] == f && f.index >= 0
  }

  /** From the `i`-th message on nothing changes what counts as the newest frame. */
  ghost predicate NothingNewer(ms: seq<UiMessage>, i: nat) {
    forall j :: i <= j < |ms| ==> !ms[j].ResetHud? && forall f :: !Brings(ms[j], f)
  }

  ghost predicate BroughtLast(ms: seq<UiMessage>, i: nat, f: Frame) {
    i < |ms| && Brings(ms[i], f) && NothingNewer(ms, i + 1)
  }

  /**
   * The newest-frame record holds the last frame of the last block handled, unless the HUD has been reset since: an
   * activation does not clear it, and frames shown while no block is made do not count.
   */
  lemma {:induction false} NewestFrame(h: Hud, ms: seq<UiMessage>, f: Frame)
    ensures HandledAll(h, ms).latest == Some(f)
            <==> (exists i :: BroughtLast(ms, i, f)) || (h.latest == Some(f) && NothingNewer(ms, 0))
    decreases |ms|
  {
    if ms != [] {
      var g, rest := Handled(h, ms[0]), ms[1..];
      NewestFrame(g, rest, f);
      LaterMessages(ms);
      BroughtFirstOrLater(ms, f);
      assert BroughtLast(ms, 0, f) <==> Brings(ms[0], f) && NothingNewer(rest, 0);
      if ms[0].PublishFrames? && ms[0].frames != [] {
        var last := ms[0].frames[|ms[0].frames| - 1];
        assert Brings(ms[0], last) <==> last.index >= 0;
        assert forall e :: Brings(ms[0], e) ==> e == last;
      }
      assert g.latest == Some(f) <==>
        Brings(ms[0], f) || (h.latest == Some(f) && !ms[0].ResetHud? && forall e :: !Brings(ms[0], e));
    }
  }

  lemma {:induction false} LaterMessages(ms: seq<UiMessage>)
    requires ms != []
    ensures NothingNewer(ms, 1) <==> NothingNewer(ms[1..], 0)
    ensures NothingNewer(ms, 0) <==>
            !ms[0].ResetHud? && (forall e :: !Brings(ms[0], e)) && NothingNewer(ms[1..], 0)
  {
    LaterBy(ms, 1);
  }

  lemma {:induction false} LaterBy(ms: seq<UiMessage>, i: nat)
    requires ms != [] && i > 0
    ensures NothingNewer(ms, i) <==> NothingNewer(ms[1..], i - 1)
  {
    var rest := ms[1..];
    assert forall j :: 1 <= j < |ms| ==> ms[j] == rest[j - 1];
    assert forall j :: 0 <= j < |rest| ==> rest[j] == ms[j + 1];
  }

  lemma {:induction false} BroughtFirstOrLater(ms: seq<UiMessage>, f: Frame)
    requires ms != []
    ensures (exists i :: BroughtLast(ms, i, f)) <==> BroughtLast(ms, 0, f) || exists i :: BroughtLast(ms[1..], i, f)
  {
    var rest := ms[1..];
    forall i: nat | BroughtLast(rest, i, f) ensures BroughtLast(ms, i + 1, f) {
      LaterBy(ms, i + 2);
    }
    forall i: nat | BroughtLast(ms, i, f) && i > 0 ensures BroughtLast(rest, i - 1, f) {
      LaterBy(ms, i + 1);
    }
  }
}
