/** State owned by the UI thread (the HUD) and by the model thread, and the operations each thread runs on its own. */
module HudState {
  import opened Prelude

  const MAX_FRAMES: nat := 64

  datatype Stage = ModeMenu | MapMenu | CourseMenu | ControlsMenu | OptionsMenu | Loading | Game

  /**
   * A HUD record for one model frame: the address of its tensor, the rollout epoch that produced it and the
   * autoregressive index. `selection` numbers the game choice it was generated for; no operation reads it.
   */
  datatype Frame = Frame(key: int, epoch: nat, index: int, selection: nat)

  datatype Hud = Hud(frames: seq<Frame>, current: Option<Frame>, latest: Option<Frame>,
                     stage: Stage, controlsDepth: nat, exitRequested: bool)

  /** Messages the UI thread queues for the model thread. */
  datatype ModelMessage = SelectGame(selection: nat) | ReturnToMenu | RestartGame | RequestExit

  /** Messages the model thread queues for the UI thread; `epoch` and `selection` label the moment of posting. */
  datatype UiMessage =
    | LoadingStatus
    | ActivateScene(selection: nat, epoch: nat)
    | ResetHud(epoch: nat)
    | PublishFrames(frames: seq<Frame>)

  predicate InMenu(stage: Stage) {
    stage != Loading && stage != Game
  }

  // ---------- the frame lookup ----------

  function DropKey(frames: seq<Frame>, key: int): (r: seq<Frame>)
    ensures forall f :: f in r <==> f in frames && f.key != key
  {
    if frames == [] then []
    else
      var rest := DropKey(frames[..|frames| - 1], key);
      var last := frames[|frames| - 1];
      assert frames == frames[..|frames| - 1] + [last];
      if last.key == key then rest else rest + [last]
  }

  /** Assigning a key and moving it to the end of the ordered lookup. */
  function Put(frames: seq<Frame>, f: Frame): seq<Frame> {
    DropKey(frames, f.key) + [f]
  }

  function PutAll(frames: seq<Frame>, added: seq<Frame>): seq<Frame> {
    if added == [] then frames
    else Put(PutAll(frames, added[..|added| - 1]), added[|added| - 1])
  }

  function Newest(frames: seq<Frame>): (r: seq<Frame>)
    ensures |r| <= MAX_FRAMES && forall f :: f in r ==> f in frames
  {
    if |frames| > MAX_FRAMES then frames[|frames| - MAX_FRAMES..] else frames
  }

  function Lookup(frames: seq<Frame>, key: int): (r: Option<Frame>)
    ensures r.Some? ==> r.value in frames && r.value.key == key
    ensures r.None? ==> forall f :: f in frames ==> f.key != key
  {
    if frames == [] then None
    else
      var last := frames[|frames| - 1];
      assert frames == frames[..|frames| - 1] + [last];
      if last.key == key then Some(last) else Lookup(frames[..|frames| - 1], key)
  }

  // ---------- HUD transitions ----------

  function Published(h: Hud, added: seq<Frame>): Hud {
    h.(frames := Newest(PutAll(h.frames, added)),
       latest := if added != [] && added[|added| - 1].index >= 0 then Some(added[|added| - 1]) else h.latest)
  }

  /** A menu ignores presented frames; otherwise a known frame becomes current and the game screen appears. */
  function Presented(h: Hud, key: int): Hud {
    if InMenu(h.stage) then h
    else
      match Lookup(h.frames, key)
      case None => h
      case Some(f) => h.(current := Some(f), stage := Game)
  }

  function Cleared(h: Hud): Hud { h.(frames := [], current := None) }

  function Activated(h: Hud): Hud { Cleared(h).(stage := Loading) }

  function WasReset(h: Hud): Hud { Cleared(h).(latest := None, exitRequested := false) }

  function Escaped(h: Hud): Hud {
    match h.stage
    case ControlsMenu => if h.controlsDepth > 0 then h.(controlsDepth := h.controlsDepth - 1) else h.(stage := ModeMenu)
    case OptionsMenu => h.(stage := ModeMenu)
    case Game => WasReset(h).(stage := MapMenu)
    case CourseMenu => h.(stage := MapMenu)
    case MapMenu => h.(stage := ModeMenu)
    case ModeMenu => h.(stage := Loading, exitRequested := true)
    case Loading => h
  }

  function EscapePosts(stage: Stage): seq<ModelMessage> {
    match stage
    case Game => [ReturnToMenu]
    case ModeMenu => [RequestExit]
    case _ => []
  }

  /** What handling one message from the model thread does to the HUD. */
  function Handled(h: Hud, m: UiMessage): Hud {
    match m
    case LoadingStatus => h
    case ActivateScene(_, _) => Activated(h)
    case ResetHud(_) => WasReset(h)
    case PublishFrames(frames) => Published(h, frames)
  }

  /** Keys are unique in the lookup, so it is a dictionary. */
  ghost predicate UniqueKeys(frames: seq<Frame>) {
    forall i, j :: 0 <= i < j < |frames| ==> frames[i].key != frames[j].key
  }

  lemma {:induction false} DropKeyKeepsUnique(frames: seq<Frame>, key: int)
    requires UniqueKeys(frames)
    ensures UniqueKeys(DropKey(frames, key))
  {
    if frames != [] {
      var init := frames[..|frames| - 1];
      DropKeyKeepsUnique(init, key);
      forall f | f in DropKey(init, key) ensures f.key != frames[|frames| - 1].key {
        assert f in init;
      }
    }
  }

  lemma {:induction false} PutAllKeepsUnique(frames: seq<Frame>, added: seq<Frame>)
    requires UniqueKeys(frames)
    ensures UniqueKeys(PutAll(frames, added))
  {
    if added != [] {
      PutAllKeepsUnique(frames, added[..|added| - 1]);
      DropKeyKeepsUnique(PutAll(frames, added[..|added| - 1]), added[|added| - 1].key);
    }
  }

  lemma {:induction false} PutAllFrom(frames: seq<Frame>, added: seq<Frame>)
    ensures forall f :: f in PutAll(frames, added) ==> f in frames || f in added
  {
    if added != [] {
      var init := added[..|added| - 1];
      PutAllFrom(frames, init);
      assert added == init + [added[|added| - 1]];
    }
  }

  lemma {:induction false} LookupLast(frames: seq<Frame>, i: nat)
    requires UniqueKeys(frames) && i < |frames|
    ensures Lookup(frames, frames[i].key) == Some(frames[i])
  {
    if i < |frames| - 1 {
      LookupLast(frames[..|frames| - 1], i);
    }
  }

  lemma {:induction false} NewestUnique(frames: seq<Frame>)
    requires UniqueKeys(frames)
    ensures UniqueKeys(Newest(frames))
  {
  }

  lemma {:induction false} NewestHolds(frames: seq<Frame>, i: nat)
    requires i < |frames| && |frames| - i <= MAX_FRAMES
    ensures var kept := Newest(frames);
            |kept| >= |frames| - i && kept[|kept| - (|frames| - i)] == frames[i]
  {
  }

  /** The last `MAX_FRAMES` frames of a batch with distinct tensors are found, each under its own key. */
  lemma {:induction false} PublishedIsFound(h: Hud, added: seq<Frame>, i: nat)
    requires UniqueKeys(h.frames) && UniqueKeys(added) && i < |added| && |added| - i <= MAX_FRAMES
    ensures Lookup(Published(h, added).frames, added[i].key) == Some(added[i])
  {
    PutAllKeepsUnique(h.frames, added);
    PutAllEndsWith(h.frames, added);
    var all := PutAll(h.frames, added);
    var at := |all| - (|added| - i);
    assert all[at] == added[i];
    NewestUnique(all);
    NewestHolds(all, at);
    LookupLast(Newest(all), |Newest(all)| - (|added| - i));
  }

  lemma {:induction false} DropKeyAbsent(frames: seq<Frame>, key: int)
    requires forall f :: f in frames ==> f.key != key
    ensures DropKey(frames, key) == frames
  {
    if frames != [] {
      assert frames == frames[..|frames| - 1] + [frames[|frames| - 1]];
      DropKeyAbsent(frames[..|frames| - 1], key);
    }
  }

  lemma {:induction false} DropKeySplit(a: seq<Frame>, b: seq<Frame>, key: int)
    ensures DropKey(a + b, key) == DropKey(a, key) + DropKey(b, key)
  {
    if b == [] {
      assert a + b == a;
    } else {
      assert (a + b)[..|a + b| - 1] == a + b[..|b| - 1];
      DropKeySplit(a, b[..|b| - 1], key);
    }
  }

  /** What is left of the old lookup once every added key has been dropped from it. */
  ghost function Survivors(frames: seq<Frame>, added: seq<Frame>): seq<Frame> {
    if added == [] then frames
    else DropKey(Survivors(frames, added[..|added| - 1]), added[|added| - 1].key)
  }

  lemma {:induction false} PutAfter(head: seq<Frame>, init: seq<Frame>, last: Frame)
    requires forall f :: f in init ==> f.key != last.key
    ensures Put(head + init, last) == DropKey(head, last.key) + (init + [last])
  {
    DropKeySplit(head, init, last.key);
    DropKeyAbsent(init, last.key);
  }

  lemma {:induction false} PutAllEndsWith(frames: seq<Frame>, added: seq<Frame>)
    requires UniqueKeys(added)
    ensures PutAll(frames, added) == Survivors(frames, added) + added
  {
    if added == [] {
      assert PutAll(frames, added) == frames;
    } else {
      var init, last := added[..|added| - 1], added[|added| - 1];
      PutAllEndsWith(frames, init);
      forall f | f in init ensures f.key != last.key {
        var i :| 0 <= i < |init| && init[i] == f;
        assert added[i] == f;
      }
      PutAfter(Survivors(frames, init), init, last);
      assert added == init + [last];
    }
  }

  // ---------- the UI thread's object ----------

  class TaxiHudState {
    var frames: seq<Frame>
    var current: Option<Frame>
    var latest: Option<Frame>
    var stage: Stage
    var controlsDepth: nat
    var exitRequested: bool

    ghost function View(): Hud
      reads this
    {
      Hud(frames, current, latest, stage, controlsDepth, exitRequested)
    }

    constructor ()
      ensures View() == Hud([], None, None, ModeMenu, 0, false)
    {
      frames, current, latest := [], None, None;
      stage, controlsDepth, exitRequested := ModeMenu, 0, false;
    }

    method Publish(added: seq<Frame>)
      modifies this
      ensures View() == Published(old(View()), added)
      ensures old(UniqueKeys(frames)) ==> UniqueKeys(frames)
    {
      AddFrames(added);
      if added != [] && added[|added| - 1].index >= 0 {
        latest := Some(added[|added| - 1]);
      }
      if UniqueKeys(frames) {
        NewestUnique(frames);
      }
      EvictFrames();
    }

    /** Put each frame behind the others, in place of one under the same key. */
    method AddFrames(added: seq<Frame>)
      modifies this`frames
      ensures frames == PutAll(old(frames), added)
      ensures old(UniqueKeys(frames)) ==> UniqueKeys(frames)
    {
      ghost var before := frames;
      for i := 0 to |added|
        invariant frames == PutAll(before, added[..i])
      {
        assert added[..i + 1][..i] == added[..i];
        frames := Put(frames, added[i]);
      }
      assert added[..|added|] == added;
      if UniqueKeys(before) {
        PutAllKeepsUnique(before, added);
      }
    }

    /** Drop the oldest frames beyond the limit. */
    method EvictFrames()
      modifies this`frames
      ensures frames == Newest(old(frames))
    {
      ghost var all := frames;
      while |frames| > MAX_FRAMES
        invariant |frames| <= |all| && frames == all[|all| - |frames|..]
        invariant |all| > MAX_FRAMES ==> |frames| >= MAX_FRAMES
        invariant |all| <= MAX_FRAMES ==> frames == all
      {
        frames := frames[1..];
      }
    }

    method SelectPresentedFrame(key: int) returns (shown: Option<Frame>)
      modifies this
      ensures View() == Presented(old(View()), key)
      ensures shown == if InMenu(old(stage)) then None else current
    {
      if InMenu(stage) {
        return None;
      }
      var selected := Lookup(frames, key);
      if selected.Some? {
        current := selected;
        stage := Game;
      }
      shown := current;
    }

    method ClearPresentedGame()
      modifies this
      ensures View() == Cleared(old(View()))
    {
      frames := [];
      current := None;
    }

    method ActivateScene()
      modifies this
      ensures View() == Activated(old(View()))
    {
      ClearPresentedGame();
      stage := Loading;
    }

    method Reset()
      modifies this
      ensures View() == WasReset(old(View()))
    {
      exitRequested := false;
      ClearPresentedGame();
      latest := None;
    }

    method HandleEscape() returns (posted: seq<ModelMessage>)
      modifies this
      ensures View() == Escaped(old(View())) && posted == EscapePosts(old(stage))
    {
      posted := [];
      if stage == ControlsMenu {
        if controlsDepth > 0 {
          controlsDepth := controlsDepth - 1;
        } else {
          stage := ModeMenu;
        }
      } else if stage == OptionsMenu {
        stage := ModeMenu;
      } else if stage == Game {
        Reset();
        stage := MapMenu;
        posted := [ReturnToMenu];
      } else if stage == CourseMenu {
        stage := MapMenu;
      } else if stage == MapMenu {
        stage := ModeMenu;
      } else if stage == ModeMenu {
        stage := Loading;
        exitRequested := true;
        posted := [RequestExit];
      }
    }
  }

  // ---------- the model thread's object ----------

  datatype Model =
    Model(gameSelected: bool, selection: nat, epoch: nat, blocks: nat, finished: bool, totalBlocks: Option<nat>)

  function ModelReset(m: Model): Model { m.(epoch := m.epoch + 1, blocks := 0, finished := false) }

  /** The model's state after one message from the UI thread. */
  function Obeyed(m: Model, msg: ModelMessage): Model {
    match msg
    case SelectGame(selection) => ModelReset(m.(gameSelected := true, selection := selection))
    case ReturnToMenu => ModelReset(m.(gameSelected := false))
    case RestartGame => ModelReset(m)
    case RequestExit => m.(finished := true)
  }

  /** What the model posts back while handling it. */
  function Replies(m: Model, msg: ModelMessage): seq<UiMessage> {
    match msg
    case SelectGame(selection) => [LoadingStatus, ActivateScene(selection, m.epoch + 1)]
    case RestartGame => [ResetHud(m.epoch + 1)]
    case _ => []
  }

  /** The frames of one generated block, labelled with the state that produced them. */
  function Labelled(m: Model, keys: seq<int>, index: int): (frames: seq<Frame>)
    ensures |frames| == |keys|
    ensures forall f :: f in frames ==> f.epoch == m.epoch && f.selection == m.selection
  {
    seq(|keys|, i requires 0 <= i < |keys| => Frame(keys[i], m.epoch, index, m.selection))
  }

  /** A step with no game selected publishes nothing; otherwise an optional restart, then one block of frames. */
  function Stepped(m: Model, restart: bool, active: bool): Model {
    if !m.gameSelected then m
    else
      var r := if restart then ModelReset(m) else m;
      var done := if active then r.(blocks := r.blocks + 1) else r;
      if done.totalBlocks.Some? && done.blocks >= done.totalBlocks.value then done.(finished := true) else done
  }

  function StepPosts(m: Model, restart: bool, active: bool, keys: seq<int>): seq<UiMessage> {
    if !m.gameSelected then []
    else
      var r := if restart then ModelReset(m) else m;
      (if restart then [ResetHud(r.epoch)] else [])
      + [PublishFrames(Labelled(r, keys, if active then r.blocks else -1))]
  }

  /** A choice of game: whether it is a race, the course asked for and the map's courses. */
  datatype Choice = Choice(race: bool, course: Option<string>, courses: set<string>)

  datatype SelectError = UnknownCourse | CourseNotAllowed | SceneFailed

  /** A race needs one of the map's courses, and nothing else may ask for one. */
  function Selectable(game: Choice, sceneLoads: bool): Result<(), SelectError> {
    if game.race && (game.course.None? || game.course.value !in game.courses) then Err(UnknownCourse)
    else if !game.race && game.course.Some? then Err(CourseNotAllowed)
    else if !sceneLoads then Err(SceneFailed)
    else Ok(())
  }

  class ModelState {
    var gameSelected: bool
    var selection: nat
    var epoch: nat
    var blocks: nat
    var finished: bool
    const totalBlocks: Option<nat>

    constructor (totalBlocks: Option<nat>)
      ensures View() == Model(false, 0, 0, 0, false, totalBlocks)
    {
      gameSelected, selection, epoch, blocks, finished := false, 0, 0, 0, false;
      this.totalBlocks := totalBlocks;
    }

    ghost function View(): Model
      reads this
    {
      Model(gameSelected, selection, epoch, blocks, finished, totalBlocks)
    }

    method Reset()
      modifies this
      ensures View() == ModelReset(old(View()))
    {
      epoch := epoch + 1;
      blocks := 0;
      finished := false;
    }

    /**
     * Select a game. A course that does not go with the choice is an error before anything is posted, a map that does
     * not load one after the first status; a selection that succeeds goes on to prepare the rollout, posting statuses
     * that change nothing on screen.
     */
    method Select(choice: nat, game: Choice, sceneLoads: bool, pipelineReady: bool, prewarmBlocks: nat)
      returns (r: Result<(), SelectError>, posted: seq<UiMessage>)
      modifies this
      ensures r == Selectable(game, sceneLoads)
      ensures r.Err? ==> View() == old(View()) && posted == (if r.error == SceneFailed then [LoadingStatus] else [])
      ensures r.Ok? ==>
                && View() == Obeyed(old(View()), SelectGame(choice))
                && posted == Replies(old(View()), SelectGame(choice))
                             + seq((if pipelineReady then 0 else 1)
                                   + (if prewarmBlocks > 0 then prewarmBlocks + 1 else 0), i => LoadingStatus)
    {
      posted := [];
      if game.race {
        if game.course.None? || game.course.value !in game.courses {
          return Err(UnknownCourse), posted;
        }
      } else if game.course.Some? {
        return Err(CourseNotAllowed), posted;
      }
      posted := [LoadingStatus];
      if !sceneLoads {
        return Err(SceneFailed), posted;
      }
      selection := choice;
      gameSelected := true;
      Reset();
      posted := posted + [ActivateScene(selection, epoch)];
      if !pipelineReady {
        posted := posted + [LoadingStatus];
      }
      if prewarmBlocks > 0 {
        ghost var before := posted;
        for block := 0 to prewarmBlocks
          invariant posted == before + seq(block, i => LoadingStatus)
        {
          posted := posted + [LoadingStatus];
        }
        posted := posted + [LoadingStatus];
      }
      r := Ok(());
    }

    method ReturnToMapMenu()
      modifies this
      ensures View() == Obeyed(old(View()), ReturnToMenu)
    {
      gameSelected := false;
      Reset();
    }

    method Restart() returns (posted: seq<UiMessage>)
      modifies this
      ensures View() == Obeyed(old(View()), RestartGame) && posted == Replies(old(View()), RestartGame)
    {
      Reset();
      posted := [ResetHud(epoch)];
    }

    method Step(restart: bool, active: bool, keys: seq<int>) returns (posted: seq<UiMessage>)
      modifies this
      ensures View() == Stepped(old(View()), restart, active)
      ensures posted == StepPosts(old(View()), restart, active, keys)
    {
      posted := [];
      if !gameSelected {
        return;
      }
      if restart {
        posted := Restart();
      }
      var index: int := -1;
      if active {
        index := blocks;
        blocks := blocks + 1;
      }
      var now := Model(gameSelected, selection, epoch, blocks, finished, totalBlocks);
      posted := posted + [PublishFrames(Labelled(now, keys, index))];
      if totalBlocks.Some? && blocks >= totalBlocks.value {
        finished := true;
      }
    }
  }
}
