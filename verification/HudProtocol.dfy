/**
 * The two threads together. Each thread snapshots its inbox into a batch, runs the batch message by message and
 * then acts; the events below interleave in any order. `requested`, `activated`, `floor` and `owners` only observe.
 */
module HudProtocol {
  import opened Prelude
  import opened HudState

  datatype System = System(
    hud: Hud, uiInbox: seq<UiMessage>, uiBatch: seq<UiMessage>,
    model: Model, modelInbox: seq<ModelMessage>, modelBatch: seq<ModelMessage>,
    requested: nat,      // game choices made so far; the last one carries this number
    activated: nat,      // number of the last choice whose activation the UI handled
    floor: nat,          // epoch at which the last handled reset or activation was posted
    owners: seq<nat>)    // the model's choice during each epoch so far

  datatype Event =
    | UiDrain | UiHandle
    | UiPresent(key: int) | UiEscape | UiGo(stage: Stage) | UiChoose | UiRestart | UiLoopReset
    | ModelDrain | ModelHandle | ModelStep(restart: bool, active: bool, keys: seq<int>) | ModelLoopReset

  function Initial(totalBlocks: Option<nat>): System {
    System(Hud([], None, None, ModeMenu, 0, false), [], [],
           Model(false, 0, 0, 0, false, totalBlocks), [], [], 0, 0, 0, [0])
  }

  /** Moves the menus offer without sending a message. */
  predicate MenuMove(from: Stage, to: Stage) {
    || (from == ModeMenu && (to == MapMenu || to == CourseMenu || to == ControlsMenu || to == OptionsMenu))
    || (from == MapMenu && to == CourseMenu)
  }

  predicate Enabled(s: System, e: Event) {
    match e
    case UiDrain => s.uiBatch == []
    case UiHandle => s.uiBatch != []
    case UiPresent(_) => s.uiBatch == []
    case UiEscape => s.uiBatch == []
    case UiGo(stage) => s.uiBatch == [] && MenuMove(s.hud.stage, stage)
    case UiChoose => s.uiBatch == [] && (s.hud.stage == ModeMenu || s.hud.stage == MapMenu || s.hud.stage == CourseMenu)
    case UiRestart => s.uiBatch == [] && s.hud.stage == Game
    case UiLoopReset => true
    case ModelDrain => s.modelBatch == []
    case ModelHandle => s.modelBatch != []
    case ModelStep(_, _, _) => s.modelBatch == [] && !s.model.finished
    case ModelLoopReset => true
  }

  function Next(s: System, e: Event): System
    requires Enabled(s, e)
  {
    match e
    case UiDrain => s.(uiBatch := s.uiInbox, uiInbox := [])
    case UiHandle =>
      var m := s.uiBatch[0];
      var t := s.(hud := Handled(s.hud, m), uiBatch := s.uiBatch[1..]);
      (match m
       case ActivateScene(selection, epoch) => t.(activated := selection, floor := epoch)
       case ResetHud(epoch) => t.(floor := epoch)
       case _ => t)
    case UiPresent(key) => s.(hud := Presented(s.hud, key))
    case UiEscape => s.(hud := Escaped(s.hud), modelInbox := s.modelInbox + EscapePosts(s.hud.stage))
    case UiGo(stage) => s.(hud := s.hud.(stage := stage))
    case UiChoose =>
      s.(hud := s.hud.(stage := Loading), requested := s.requested + 1,
         modelInbox := s.modelInbox + [SelectGame(s.requested + 1)])
    case UiRestart => s.(modelInbox := s.modelInbox + [RestartGame])
    case UiLoopReset => s.(hud := WasReset(s.hud))
    case ModelDrain => s.(modelBatch := s.modelInbox, modelInbox := [])
    case ModelHandle =>
      var m := s.modelBatch[0];
      WithModel(s.(modelBatch := s.modelBatch[1..], uiInbox := s.uiInbox + Replies(s.model, m)), Obeyed(s.model, m))
    case ModelStep(restart, active, keys) =>
      WithModel(s.(uiInbox := s.uiInbox + StepPosts(s.model, restart, active, keys)), Stepped(s.model, restart, active))
    case ModelLoopReset => WithModel(s, ModelReset(s.model))
  }

  /** Install the model's next state, noting which choice owns a newly opened epoch. */
  function WithModel(s: System, m: Model): System {
    s.(model := m, owners := if m.epoch > s.model.epoch then s.owners + [m.selection] else s.owners)
  }

  predicate Legal(s: System, events: seq<Event>)
    decreases |events|
  {
    events == [] || (Enabled(s, events[0]) && Legal(Next(s, events[0]), events[1..]))
  }

  /** The state after a whole run. */
  function After(s: System, events: seq<Event>): System
    requires Legal(s, events)
    decreases |events|
  {
    if events == [] then s else After(Next(s, events[0]), events[1..])
  }

  // ---------- frames belong to the activated choice ----------

  ghost predicate Fits(f: Frame, activated: nat, floor: nat) {
    f.selection == activated && f.epoch >= floor
  }

  ghost predicate AllFit(frames: seq<Frame>, activated: nat, floor: nat) {
    forall f :: f in frames ==> Fits(f, activated, floor)
  }

  /** Every frame the HUD can look up or is showing fits the observers. */
  ghost predicate HeldFit(s: System) {
    && AllFit(s.hud.frames, s.activated, s.floor)
    && (s.hud.current.Some? ==> Fits(s.hud.current.value, s.activated, s.floor))
  }

  /** The observers once the messages have been handled. */
  ghost function Cursor(activated: nat, floor: nat, ms: seq<UiMessage>): (nat, nat) {
    if ms == [] then (activated, floor)
    else
      var c := Cursor(activated, floor, ms[..|ms| - 1]);
      match ms[|ms| - 1]
      case ActivateScene(selection, epoch) => (selection, epoch)
      case ResetHud(epoch) => (c.0, epoch)
      case _ => c
  }

  /** Every message in flight will deliver only frames that fit when it is handled. */
  ghost predicate InOrder(activated: nat, floor: nat, ms: seq<UiMessage>) {
    ms == [] ||
    (var c := Cursor(activated, floor, ms[..|ms| - 1]);
     && InOrder(activated, floor, ms[..|ms| - 1])
     && (ms[|ms| - 1].PublishFrames? ==> AllFit(ms[|ms| - 1].frames, c.0, c.1)))
  }

  ghost function InFlight(s: System): seq<UiMessage> { s.uiBatch + s.uiInbox }

  ghost predicate FramesInv(s: System) {
    && HeldFit(s)
    && InOrder(s.activated, s.floor, InFlight(s))
    && var c := Cursor(s.activated, s.floor, InFlight(s));
       && c.1 <= s.model.epoch
       && (s.model.gameSelected ==> c.0 == s.model.selection)
  }

  lemma {:induction false} HandleFirst(activated: nat, floor: nat, ms: seq<UiMessage>)
    requires ms != [] && InOrder(activated, floor, ms)
    ensures var c := Cursor(activated, floor, ms[..1]);
            && (ms[0].PublishFrames? ==> AllFit(ms[0].frames, activated, floor))
            && InOrder(c.0, c.1, ms[1..])
            && Cursor(c.0, c.1, ms[1..]) == Cursor(activated, floor, ms)
  {
    if |ms| == 1 {
      assert ms[..1] == ms && ms[..0] == [];
    } else {
      var init := ms[..|ms| - 1];
      HandleFirst(activated, floor, init);
      assert init[..1] == ms[..1] && init[1..] == ms[1..][..|ms| - 2];
    }
  }

  lemma {:induction false} PostOne(activated: nat, floor: nat, ms: seq<UiMessage>, m: UiMessage)
    requires InOrder(activated, floor, ms)
    requires var c := Cursor(activated, floor, ms); m.PublishFrames? ==> AllFit(m.frames, c.0, c.1)
    ensures InOrder(activated, floor, ms + [m])
    ensures Cursor(activated, floor, ms + [m]) ==
            match m
            case ActivateScene(selection, epoch) => (selection, epoch)
            case ResetHud(epoch) => (Cursor(activated, floor, ms).0, epoch)
            case _ => Cursor(activated, floor, ms)
  {
    assert (ms + [m])[..|ms|] == ms;
  }

  lemma {:induction false} FramesInvHandle(s: System)
    requires FramesInv(s) && s.uiBatch != []
    ensures FramesInv(Next(s, UiHandle))
  {
    var t := Next(s, UiHandle);
    var ms := InFlight(s);
    HandleFirst(s.activated, s.floor, ms);
    assert ms[1..] == InFlight(t);
    assert ms[..1] == [s.uiBatch[0]];
    assert ms[..1][..0] == [];
    match s.uiBatch[0]
    case PublishFrames(frames) =>
      PutAllFrom(s.hud.frames, frames);
    case _ =>
  }

  /** Only the messages in flight and the model have changed. */
  lemma {:induction false} FramesInvPosted(s: System, t: System)
    requires FramesInv(s) && t.hud == s.hud && t.activated == s.activated && t.floor == s.floor
    requires InOrder(s.activated, s.floor, InFlight(t))
    requires var c := Cursor(s.activated, s.floor, InFlight(t));
             c.1 <= t.model.epoch && (t.model.gameSelected ==> c.0 == t.model.selection)
    ensures FramesInv(t)
  {
  }

  lemma {:induction false} FramesInvSelect(s: System, selection: nat)
    requires FramesInv(s) && s.modelBatch != [] && s.modelBatch[0] == SelectGame(selection)
    ensures FramesInv(Next(s, ModelHandle))
  {
    var ms := InFlight(s);
    var t := Next(s, ModelHandle);
    PostOne(s.activated, s.floor, ms, LoadingStatus);
    PostOne(s.activated, s.floor, ms + [LoadingStatus], ActivateScene(selection, s.model.epoch + 1));
    assert InFlight(t) == ms + [LoadingStatus] + [ActivateScene(selection, s.model.epoch + 1)];
    FramesInvPosted(s, t);
  }

  lemma {:induction false} FramesInvModelHandle(s: System)
    requires FramesInv(s) && s.modelBatch != []
    ensures FramesInv(Next(s, ModelHandle))
  {
    var ms := InFlight(s);
    var t := Next(s, ModelHandle);
    match s.modelBatch[0]
    case SelectGame(selection) => FramesInvSelect(s, selection);
    case RestartGame =>
      PostOne(s.activated, s.floor, ms, ResetHud(s.model.epoch + 1));
      assert InFlight(t) == ms + [ResetHud(s.model.epoch + 1)];
      FramesInvPosted(s, t);
    case _ =>
      assert InFlight(t) == ms;
      FramesInvPosted(s, t);
  }

  /** The posts of one step, in order, fit as long as the frames carry the model's choice and epoch. */
  lemma {:induction false} StepPostsFit(activated: nat, floor: nat, ms: seq<UiMessage>, m: Model, restart: bool,
                                        active: bool, keys: seq<int>)
    requires InOrder(activated, floor, ms) && m.gameSelected
    requires var c := Cursor(activated, floor, ms); c.0 == m.selection && c.1 <= m.epoch
    ensures var all := ms + StepPosts(m, restart, active, keys);
            var c := Cursor(activated, floor, all);
            InOrder(activated, floor, all) && c.0 == m.selection && c.1 <= Stepped(m, restart, active).epoch
  {
    var r := if restart then ModelReset(m) else m;
    var mid := if restart then ms + [ResetHud(r.epoch)] else ms;
    if restart {
      PostOne(activated, floor, ms, ResetHud(r.epoch));
    }
    var published := PublishFrames(Labelled(r, keys, if active then r.blocks else -1));
    PostOne(activated, floor, mid, published);
    assert ms + StepPosts(m, restart, active, keys) == mid + [published];
  }

  lemma {:induction false} FramesInvModelStep(s: System, restart: bool, active: bool, keys: seq<int>)
    requires FramesInv(s) && Enabled(s, ModelStep(restart, active, keys))
    ensures FramesInv(Next(s, ModelStep(restart, active, keys)))
  {
    var t := Next(s, ModelStep(restart, active, keys));
    assert InFlight(t) == InFlight(s) + StepPosts(s.model, restart, active, keys);
    if s.model.gameSelected {
      StepPostsFit(s.activated, s.floor, InFlight(s), s.model, restart, active, keys);
    } else {
      assert InFlight(t) == InFlight(s);
    }
    FramesInvPosted(s, t);
  }

  lemma {:induction false} FramesInvStep(s: System, e: Event)
    requires FramesInv(s) && Enabled(s, e)
    ensures FramesInv(Next(s, e))
  {
    var t := Next(s, e);
    match e
    case UiHandle => FramesInvHandle(s);
    case ModelHandle => FramesInvModelHandle(s);
    case ModelStep(restart, active, keys) => FramesInvModelStep(s, restart, active, keys);
    case _ => assert InFlight(t) == InFlight(s);
  }

  lemma {:induction false} FramesInvRun(s: System, events: seq<Event>)
    requires FramesInv(s) && Legal(s, events)
    ensures FramesInv(After(s, events))
    decreases |events|
  {
    if events != [] {
      FramesInvStep(s, events[0]);
      FramesInvRun(Next(s, events[0]), events[1..]);
    }
  }

  /**
   * Under every interleaving, every frame the HUD holds or shows was generated for the most recently activated
   * choice, in an epoch no older than the last reset or activation handled.
   */
  lemma {:induction false} FramesFollowActivation(totalBlocks: Option<nat>, events: seq<Event>)
    requires Legal(Initial(totalBlocks), events)
    ensures HeldFit(After(Initial(totalBlocks), events))
  {
    FramesInvRun(Initial(totalBlocks), events);
  }

  /** What is shown is the game last asked for exactly when that request has been activated. */
  lemma {:induction false} ShownIsRequested(totalBlocks: Option<nat>, events: seq<Event>)
    requires Legal(Initial(totalBlocks), events)
    ensures var s := After(Initial(totalBlocks), events);
            s.hud.current.Some? ==> (s.hud.current.value.selection == s.requested <==> s.activated == s.requested)
  {
    FramesFollowActivation(totalBlocks, events);
  }

  // ---------- an epoch identifies its choice ----------

  ghost predicate Owned(f: Frame, owners: seq<nat>) {
    f.epoch < |owners| && owners[f.epoch] == f.selection
  }

  ghost predicate MessageOwned(m: UiMessage, owners: seq<nat>) {
    m.PublishFrames? ==> forall f :: f in m.frames ==> Owned(f, owners)
  }

  ghost predicate OwnersInv(s: System) {
    && |s.owners| == s.model.epoch + 1
    && s.owners[s.model.epoch] == s.model.selection
    && (forall f :: f in s.hud.frames ==> Owned(f, s.owners))
    && (s.hud.current.Some? ==> Owned(s.hud.current.value, s.owners))
    && (s.hud.latest.Some? ==> Owned(s.hud.latest.value, s.owners))
    && (forall m :: m in s.uiBatch ==> MessageOwned(m, s.owners))
    && (forall m :: m in s.uiInbox ==> MessageOwned(m, s.owners))
  }

  lemma {:induction false} OwnersInvMore(s: System, t: System)
    requires OwnersInv(s) && t.hud == s.hud && t.uiBatch == s.uiBatch
    requires |t.owners| >= |s.owners| && t.owners[..|s.owners|] == s.owners
    requires |t.owners| == t.model.epoch + 1 && t.owners[t.model.epoch] == t.model.selection
    requires |s.uiInbox| <= |t.uiInbox| && t.uiInbox[..|s.uiInbox|] == s.uiInbox
    requires forall m :: m in t.uiInbox[|s.uiInbox|..] ==> MessageOwned(m, t.owners)
    ensures OwnersInv(t)
  {
    forall f | Owned(f, s.owners) ensures Owned(f, t.owners) {
      assert t.owners[..|s.owners|][f.epoch] == t.owners[f.epoch];
    }
    forall m | m in t.uiInbox ensures MessageOwned(m, t.owners) {
      assert t.uiInbox == s.uiInbox + t.uiInbox[|s.uiInbox|..];
      if m in s.uiInbox {
        assert MessageOwned(m, s.owners);
      }
    }
  }

  lemma {:induction false} OwnersInvUiHandle(s: System)
    requires OwnersInv(s) && s.uiBatch != []
    ensures OwnersInv(Next(s, UiHandle))
  {
    var t := Next(s, UiHandle);
    assert s.uiBatch[0] in s.uiBatch;
    if s.uiBatch[0].PublishFrames? {
      PutAllFrom(s.hud.frames, s.uiBatch[0].frames);
    }
    forall m | m in t.uiBatch ensures MessageOwned(m, t.owners) {
      assert m in s.uiBatch;
    }
  }

  lemma {:induction false} OwnersInvModelStep(s: System, restart: bool, active: bool, keys: seq<int>)
    requires OwnersInv(s) && Enabled(s, ModelStep(restart, active, keys))
    ensures OwnersInv(Next(s, ModelStep(restart, active, keys)))
  {
    var t := Next(s, ModelStep(restart, active, keys));
    var posts := StepPosts(s.model, restart, active, keys);
    assert t.uiInbox[|s.uiInbox|..] == posts;
    OwnersInvMore(s, t);
  }

  lemma {:induction false} OwnersInvModelHandle(s: System)
    requires OwnersInv(s) && s.modelBatch != []
    ensures OwnersInv(Next(s, ModelHandle))
  {
    var t := Next(s, ModelHandle);
    assert t.uiInbox[|s.uiInbox|..] == Replies(s.model, s.modelBatch[0]);
    OwnersInvMore(s, t);
  }

  lemma {:induction false} OwnersInvStep(s: System, e: Event)
    requires OwnersInv(s) && Enabled(s, e)
    ensures OwnersInv(Next(s, e))
  {
    match e
    case UiHandle => OwnersInvUiHandle(s);
    case ModelStep(restart, active, keys) => OwnersInvModelStep(s, restart, active, keys);
    case ModelHandle => OwnersInvModelHandle(s);
    case ModelLoopReset => OwnersInvMore(s, Next(s, e));
    case _ =>
  }

  lemma {:induction false} OwnersInvRun(s: System, events: seq<Event>)
    requires OwnersInv(s) && Legal(s, events)
    ensures OwnersInv(After(s, events))
    decreases |events|
  {
    if events != [] {
      OwnersInvStep(s, events[0]);
      OwnersInvRun(Next(s, events[0]), events[1..]);
    }
  }

  /**
   * The newest-frame record survives an activation, so it may belong to an earlier game; but whenever its epoch
   * equals that of the shown frame, which is what the trace compares first, the two come from the same choice.
   */
  lemma {:induction false} SameEpochSameGame(totalBlocks: Option<nat>, events: seq<Event>)
    requires Legal(Initial(totalBlocks), events)
    ensures var h := After(Initial(totalBlocks), events).hud;
            h.latest.Some? && h.current.Some? && h.latest.value.epoch == h.current.value.epoch
            ==> h.latest.value.selection == h.current.value.selection
  {
    OwnersInvRun(Initial(totalBlocks), events);
  }
}
