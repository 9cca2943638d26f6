/**
 * The loading screen: a run in which a frame of the previous game reopens the game screen while a new game loads,
 * and leaving it then strands the user on the loading screen for good; and the runs in which that cannot happen.
 */
module HudLoading {
  import opened Prelude
  import opened HudState
  import opened HudProtocol

  // ---------- no way out ----------

  /** The loading screen is up, nothing is in flight and the model has no game to load. */
  ghost predicate Stranded(s: System) {
    && s.hud.stage == Loading && s.hud.frames == [] && !s.hud.exitRequested
    && s.uiInbox == [] && s.uiBatch == []
    && !s.model.gameSelected && s.modelInbox == [] && s.modelBatch == []
  }

  lemma {:induction false} StrandedStep(s: System, e: Event)
    requires Stranded(s) && Enabled(s, e)
    ensures Stranded(Next(s, e))
  {
  }

  /** Nothing either thread or the user can do leads out of a stranded loading screen. */
  lemma {:induction false} StrandedForever(s: System, events: seq<Event>)
    requires Stranded(s) && Legal(s, events)
    ensures Stranded(After(s, events))
    decreases |events|
  {
    if events != [] {
      StrandedStep(s, events[0]);
      StrandedForever(Next(s, events[0]), events[1..]);
    }
  }

  // ---------- how to get there ----------

  lemma {:induction false} AppendRun(s: System, a: seq<Event>, b: seq<Event>)
    requires Legal(s, a) && Legal(After(s, a), b)
    ensures Legal(s, a + b) && After(s, a + b) == After(After(s, a), b)
    decreases |a|
  {
    if a == [] {
      assert a + b == b;
    } else {
      assert (a + b)[0] == a[0] && (a + b)[1..] == a[1..] + b;
      AppendRun(Next(s, a[0]), a[1..], b);
    }
  }

  lemma {:induction false} OneMore(start: System, run: seq<Event>, s: System, e: Event)
    requires Legal(start, run) && After(start, run) == s && Enabled(s, e)
    ensures Legal(start, run + [e]) && After(start, run + [e]) == Next(s, e)
  {
    assert [e][1..] == [];
    assert Legal(Next(s, e), []);
    AppendRun(start, run, [e]);
  }

  /** A state reached by some run. */
  ghost predicate Reachable(s: System) {
    exists run :: Legal(Initial(None), run) && After(Initial(None), run) == s
  }

  lemma {:induction false} ReachNext(s: System, e: Event)
    requires Reachable(s) && Enabled(s, e)
    ensures Reachable(Next(s, e))
  {
    var run :| Legal(Initial(None), run) && After(Initial(None), run) == s;
    OneMore(Initial(None), run, s, e);
  }

  lemma {:induction false} ReachInitial()
    ensures Reachable(Initial(None))
  {
    assert Legal(Initial(None), []) && After(Initial(None), []) == Initial(None);
  }

  const FIRST := Frame(7, 1, 0, 1)
  const SECOND := Frame(8, 1, 1, 1)

  /** The first game is loaded and its first frame is on screen; the UI has started a fresh turn. */
  const PLAYING := System(
    Hud([FIRST], Some(FIRST), Some(FIRST), Game, 0, false), [], [],
    Model(true, 1, 1, 1, false, None), [], [], 1, 1, 1, [0, 1])

  lemma {:induction false} ReachLoaded() returns (s: System)
    ensures Reachable(s)
    ensures s == System(Hud([], None, None, Loading, 0, false), [LoadingStatus, ActivateScene(1, 1)], [],
                        Model(true, 1, 1, 0, false, None), [], [], 1, 0, 0, [0, 1])
  {
    ReachInitial();
    s := Initial(None);
    ReachNext(s, UiGo(MapMenu));  s := Next(s, UiGo(MapMenu));
    ReachNext(s, UiChoose);  s := Next(s, UiChoose);
    ReachNext(s, ModelDrain);  s := Next(s, ModelDrain);
    assert s.modelBatch == [SelectGame(1)];
    ReachNext(s, ModelHandle);  s := Next(s, ModelHandle);
  }

  lemma {:induction false} ReachGenerated() returns (s: System)
    ensures Reachable(s)
    ensures s == System(Hud([], None, None, Loading, 0, false), [PublishFrames([FIRST])], [],
                        Model(true, 1, 1, 1, false, None), [], [], 1, 1, 1, [0, 1])
  {
    s := ReachLoaded();
    ReachNext(s, UiDrain);  s := Next(s, UiDrain);
    assert s.uiBatch == [LoadingStatus, ActivateScene(1, 1)];
    ReachNext(s, UiHandle);  s := Next(s, UiHandle);
    ReachNext(s, UiHandle);  s := Next(s, UiHandle);
    var step := ModelStep(false, true, [7]);
    ReachNext(s, step);  s := Next(s, step);
    assert Labelled(Model(true, 1, 1, 0, false, None), [7], 0) == [FIRST];
    assert s.uiInbox == [PublishFrames([FIRST])];
  }

  lemma {:induction false} ReachPlaying()
    ensures Reachable(PLAYING)
  {
    var s := ReachGenerated();
    ReachNext(s, UiDrain);  s := Next(s, UiDrain);
    assert Handled(s.hud, PublishFrames([FIRST])).frames == [FIRST] by { PutFirst(); }
    ReachNext(s, UiHandle);  s := Next(s, UiHandle);
    ReachNext(s, UiPresent(7));  s := Next(s, UiPresent(7));
    ReachNext(s, UiDrain);  s := Next(s, UiDrain);
  }

  lemma {:induction false} PutFirst()
    ensures PutAll([], [FIRST]) == [FIRST] && PutAll([], [SECOND]) == [SECOND]
  {
    assert [FIRST][..0] == [] && [SECOND][..0] == [];
  }

  /** The user has left the first game and chosen a second; a last frame of the first has arrived since. */
  const CHANGING := System(
    Hud([SECOND], None, Some(SECOND), Loading, 0, false), [], [],
    Model(true, 1, 1, 2, false, None), [ReturnToMenu, SelectGame(2)], [], 2, 1, 1, [0, 1])

  /** The first game's last frame has been posted and the user has pressed Escape, both still unhandled. */
  lemma {:induction false} ReachLeaving() returns (s: System)
    ensures Reachable(s)
    ensures s == System(Hud([], None, None, MapMenu, 0, false), [PublishFrames([SECOND])], [],
                        Model(true, 1, 1, 2, false, None), [ReturnToMenu], [], 1, 1, 1, [0, 1])
  {
    ReachPlaying();
    s := PLAYING;
    var step := ModelStep(false, true, [8]);
    ReachNext(s, step);  s := Next(s, step);
    assert Labelled(PLAYING.model, [8], 1) == [SECOND];
    assert s.uiInbox == [PublishFrames([SECOND])];
    ReachNext(s, UiEscape);  s := Next(s, UiEscape);
  }

  lemma {:induction false} ReachChanging()
    ensures Reachable(CHANGING)
  {
    var s := ReachLeaving();
    ReachNext(s, UiDrain);  s := Next(s, UiDrain);
    assert Handled(s.hud, PublishFrames([SECOND])).frames == [SECOND] by { PutFirst(); }
    ReachNext(s, UiHandle);  s := Next(s, UiHandle);
    ReachNext(s, UiChoose);  s := Next(s, UiChoose);
    assert s.modelInbox == [ReturnToMenu, SelectGame(2)];
    ReachNext(s, UiDrain);  s := Next(s, UiDrain);
  }

  /** While the second game is loading, a frame of the first can reopen the game screen. */
  lemma {:induction false} OldGameReappears()
    ensures exists s :: Reachable(s) && s.hud.stage == Game && s.hud.current.Some?
                        && s.hud.current.value.selection != s.requested
  {
    ReachChanging();
    ReachNext(CHANGING, UiPresent(8));
  }

  /** The second game has been activated; the newest-frame record is still the first game's. */
  lemma {:induction false} NewestOutlivesItsGame()
    ensures exists s :: Reachable(s) && s.hud.latest.Some? && s.hud.latest.value.selection != s.activated
  {
    ReachChanging();
    var s := CHANGING;
    ReachNext(s, ModelDrain);  s := Next(s, ModelDrain);
    assert s.modelBatch == [ReturnToMenu, SelectGame(2)];
    ReachNext(s, ModelHandle);  s := Next(s, ModelHandle);
    ReachNext(s, ModelHandle);  s := Next(s, ModelHandle);
    assert s.uiInbox == [LoadingStatus, ActivateScene(2, 3)];
    ReachNext(s, UiDrain);  s := Next(s, UiDrain);
    ReachNext(s, UiHandle);  s := Next(s, UiHandle);
    ReachNext(s, UiHandle);  s := Next(s, UiHandle);
  }

  /** The user has left the reopened screen; the model works off a choice and two returns. */
  lemma {:induction false} ReachLate() returns (s: System)
    ensures Reachable(s)
    ensures s == System(Hud([], None, None, MapMenu, 0, false), [], [],
                        Model(true, 1, 1, 2, false, None), [], [ReturnToMenu, SelectGame(2), ReturnToMenu],
                        2, 1, 1, [0, 1])
  {
    ReachChanging();
    s := CHANGING;
    ReachNext(s, UiPresent(8));  s := Next(s, UiPresent(8));
    ReachNext(s, UiDrain);  s := Next(s, UiDrain);
    ReachNext(s, UiEscape);  s := Next(s, UiEscape);
    assert s.modelInbox == [ReturnToMenu, SelectGame(2), ReturnToMenu];
    ReachNext(s, ModelDrain);  s := Next(s, ModelDrain);
  }

  /** Leaving that screen strands the user: the late activation shows a loading screen no game stands behind. */
  lemma {:induction false} StrandedReachable()
    ensures exists s :: Reachable(s) && Stranded(s)
  {
    var s := ReachLate();
    ReachNext(s, ModelHandle);  s := Next(s, ModelHandle);
    ReachNext(s, ModelHandle);  s := Next(s, ModelHandle);
    assert s.modelBatch == [ReturnToMenu];
    ReachNext(s, ModelHandle);  s := Next(s, ModelHandle);
    assert s.uiInbox == [LoadingStatus, ActivateScene(2, 3)];
    ReachNext(s, UiDrain);  s := Next(s, UiDrain);
    ReachNext(s, UiHandle);  s := Next(s, UiHandle);
    ReachNext(s, UiHandle);  s := Next(s, UiHandle);
    assert Stranded(s);
  }

  // ---------- when it cannot happen ----------

  /** The user does not quit, and leaves a game only when no choice is still waiting for its activation. */
  predicate Careful(s: System, e: Event) {
    e == UiEscape ==> s.hud.stage != ModeMenu && (s.hud.stage == Game ==> s.requested == s.activated)
  }

  predicate CarefulRun(s: System, events: seq<Event>)
    requires Legal(s, events)
    decreases |events|
  {
    events == [] || (Careful(s, events[0]) && CarefulRun(Next(s, events[0]), events[1..]))
  }

  ghost function Orders(s: System): seq<ModelMessage> { s.modelBatch + s.modelInbox }

  /** Whether the model will have a game once it has obeyed everything sent to it. */
  ghost function WillHaveGame(selected: bool, orders: seq<ModelMessage>): bool {
    if orders == [] then selected
    else
      match orders[|orders| - 1]
      case SelectGame(_) => true
      case ReturnToMenu => false
      case _ => WillHaveGame(selected, orders[..|orders| - 1])
  }

  ghost function Count<T(!new)>(xs: seq<T>, p: T -> bool): nat {
    if xs == [] then 0 else Count(xs[..|xs| - 1], p) + if p(xs[|xs| - 1]) then 1 else 0
  }

  lemma {:induction false} CountFirst<T(!new)>(xs: seq<T>, p: T -> bool)
    requires xs != []
    ensures Count(xs, p) == (if p(xs[0]) then 1 else 0) + Count(xs[1..], p)
  {
    if |xs| > 1 {
      CountFirst(xs[..|xs| - 1], p);
      assert xs[..|xs| - 1][1..] == xs[1..][..|xs| - 2];
    } else {
      assert xs[..0] == [] && xs[1..] == [];
    }
  }

  lemma {:induction false} CountSnoc<T(!new)>(xs: seq<T>, x: T, p: T -> bool)
    ensures Count(xs + [x], p) == Count(xs, p) + if p(x) then 1 else 0
  {
    assert (xs + [x])[..|xs|] == xs;
  }

  lemma {:induction false} CountZero<T(!new)>(xs: seq<T>, p: T -> bool)
    requires Count(xs, p) == 0
    ensures forall x :: x in xs ==> !p(x)
  {
    if xs != [] {
      CountZero(xs[..|xs| - 1], p);
      assert xs == xs[..|xs| - 1] + [xs[|xs| - 1]];
    }
  }

  lemma {:induction false} ObeyFirst(selected: bool, orders: seq<ModelMessage>)
    requires orders != []
    ensures WillHaveGame(selected, orders) == WillHaveGame(WillHaveGame(selected, orders[..1]), orders[1..])
  {
    if |orders| > 1 {
      var init := orders[..|orders| - 1];
      ObeyFirst(selected, init);
      assert init[1..] == orders[1..][..|orders| - 2] && init[..1] == orders[..1];
    } else {
      assert orders[..1] == orders && orders[1..] == [];
    }
  }

  predicate IsSelect(m: ModelMessage) { m.SelectGame? }

  predicate IsActivation(m: UiMessage) { m.ActivateScene? }

  ghost function Selects(s: System): nat { Count(Orders(s), IsSelect) }

  ghost function Activations(s: System): nat { Count(InFlight(s), IsActivation) }

  ghost predicate WillPlay(s: System) { WillHaveGame(s.model.gameSelected, Orders(s)) }

  ghost predicate CarriesChoice(s: System) {
    && (forall m :: m in Orders(s) && m.SelectGame? ==> m.selection == s.requested)
    && (forall m :: m in InFlight(s) && m.ActivateScene? ==> m.selection == s.requested)
  }

  /** At most one choice is under way, and no loading screen is up unless a game is or will be selected. */
  ghost predicate LoadingInv(s: System) {
    && CarriesChoice(s)
    && Selects(s) + Activations(s) == (if s.requested == s.activated then 0 else 1)
    && (s.requested != s.activated ==> (s.hud.stage == Loading || s.hud.stage == Game) && WillPlay(s))
    && (s.hud.stage == Loading ==> WillPlay(s))
  }

  lemma {:induction false} LoadingInvSame(s: System, t: System)
    requires LoadingInv(s)
    requires Orders(t) == Orders(s) && InFlight(t) == InFlight(s) && t.model.gameSelected == s.model.gameSelected
    requires t.requested == s.requested && t.activated == s.activated
    requires t.hud.stage == s.hud.stage || (t.hud.stage == Game && !InMenu(s.hud.stage))
             || (InMenu(s.hud.stage) && InMenu(t.hud.stage))
    ensures LoadingInv(t)
  {
  }

  lemma {:induction false} UiHandleCarries(s: System)
    requires CarriesChoice(s) && s.uiBatch != []
    ensures CarriesChoice(Next(s, UiHandle))
    ensures s.uiBatch[0].ActivateScene? ==> s.uiBatch[0].selection == s.requested
  {
    var t := Next(s, UiHandle);
    var ms := InFlight(s);
    assert ms[1..] == InFlight(t) && ms[0] == s.uiBatch[0];
    assert ms[0] in ms;
    assert forall m :: m in InFlight(t) ==> m in ms;
  }

  lemma {:induction false} HandledStage(h: Hud, m: UiMessage)
    ensures Handled(h, m).stage == if m.ActivateScene? then Loading else h.stage
  {
  }

  /** What a handled message may change, as far as loading goes. */
  lemma {:induction false} LoadingInvHandled(s: System, t: System, activation: bool)
    requires LoadingInv(s) && CarriesChoice(t)
    requires Orders(t) == Orders(s) && t.model.gameSelected == s.model.gameSelected && t.requested == s.requested
    requires Activations(s) == Activations(t) + (if activation then 1 else 0)
    requires t.activated == (if activation then s.requested else s.activated)
    requires t.hud.stage == (if activation then Loading else s.hud.stage)
    ensures LoadingInv(t)
  {
  }

  /** The state as it is when a message has been handled, for whatever the HUD made of it. */
  lemma {:induction false} UiHandleEffect(s: System)
    requires s.uiBatch != []
    ensures var t := Next(s, UiHandle);
            && Orders(t) == Orders(s) && t.model == s.model && t.requested == s.requested
            && InFlight(s)[0] == s.uiBatch[0] && InFlight(t) == InFlight(s)[1..]
            && t.activated == (if s.uiBatch[0].ActivateScene? then s.uiBatch[0].selection else s.activated)
            && t.hud.stage == (if s.uiBatch[0].ActivateScene? then Loading else s.hud.stage)
  {
    HandledStage(s.hud, s.uiBatch[0]);
  }

  lemma {:induction false} OneFewerActivation(s: System, t: System)
    requires s.uiBatch != [] && InFlight(s)[0] == s.uiBatch[0] && InFlight(t) == InFlight(s)[1..]
    ensures Activations(s) == Activations(t) + if s.uiBatch[0].ActivateScene? then 1 else 0
  {
    CountFirst(InFlight(s), IsActivation);
  }

  lemma {:induction false} LoadingInvUiHandle(s: System)
    requires LoadingInv(s) && s.uiBatch != []
    ensures LoadingInv(Next(s, UiHandle))
  {
    var t := Next(s, UiHandle);
    UiHandleCarries(s);
    UiHandleEffect(s);
    OneFewerActivation(s, t);
    LoadingInvHandled(s, t, s.uiBatch[0].ActivateScene?);
  }

  lemma {:induction false} ModelHandlePlay(s: System)
    requires s.modelBatch != []
    ensures WillPlay(Next(s, ModelHandle)) == WillPlay(s)
  {
    var t := Next(s, ModelHandle);
    var orders := Orders(s);
    assert orders[1..] == Orders(t);
    ObeyFirst(s.model.gameSelected, orders);
    assert orders[..1] == [s.modelBatch[0]] && orders[..1][..0] == [];
  }

  lemma {:induction false} ModelHandleInFlight(s: System)
    requires s.modelBatch != []
    ensures InFlight(Next(s, ModelHandle)) == InFlight(s) + Replies(s.model, s.modelBatch[0])
  {
  }

  lemma {:induction false} ModelHandleCounts(s: System)
    requires s.modelBatch != []
    ensures var t := Next(s, ModelHandle); Selects(t) + Activations(t) == Selects(s) + Activations(s)
  {
    var t := Next(s, ModelHandle);
    var orders := Orders(s);
    CountFirst(orders, IsSelect);
    assert orders[1..] == Orders(t) && orders[0] == s.modelBatch[0];
    ModelHandleInFlight(s);
    RepliesCount(InFlight(s), s.model, s.modelBatch[0]);
  }

  lemma {:induction false} RepliesCount(ms: seq<UiMessage>, m: Model, order: ModelMessage)
    ensures Count(ms + Replies(m, order), IsActivation) == Count(ms, IsActivation) + if order.SelectGame? then 1 else 0
  {
    match order
    case SelectGame(selection) =>
      var activate := ActivateScene(selection, m.epoch + 1);
      CountSnoc(ms, LoadingStatus, IsActivation);
      CountSnoc(ms + [LoadingStatus], activate, IsActivation);
      assert ms + [LoadingStatus, activate] == ms + [LoadingStatus] + [activate];
    case RestartGame =>
      CountSnoc(ms, ResetHud(m.epoch + 1), IsActivation);
    case _ =>
      assert ms + [] == ms;
  }

  lemma {:induction false} ModelHandleCarries(s: System)
    requires s.modelBatch != [] && CarriesChoice(s)
    ensures CarriesChoice(Next(s, ModelHandle))
  {
    var t := Next(s, ModelHandle);
    assert s.modelBatch[0] in Orders(s);
    assert forall o :: o in Orders(t) ==> o in Orders(s);
    ModelHandleInFlight(s);
  }

  lemma {:induction false} LoadingInvModelHandle(s: System)
    requires LoadingInv(s) && s.modelBatch != []
    ensures LoadingInv(Next(s, ModelHandle))
  {
    ModelHandlePlay(s);
    ModelHandleCounts(s);
    ModelHandleCarries(s);
  }

  lemma {:induction false} StepPostsCount(ms: seq<UiMessage>, m: Model, restart: bool, active: bool, keys: seq<int>)
    ensures Count(ms + StepPosts(m, restart, active, keys), IsActivation) == Count(ms, IsActivation)
    ensures forall x :: x in StepPosts(m, restart, active, keys) ==> !x.ActivateScene?
  {
    if m.gameSelected {
      var r := if restart then ModelReset(m) else m;
      var mid := if restart then ms + [ResetHud(r.epoch)] else ms;
      var published := PublishFrames(Labelled(r, keys, if active then r.blocks else -1));
      CountSnoc(ms, ResetHud(r.epoch), IsActivation);
      CountSnoc(mid, published, IsActivation);
      assert ms + StepPosts(m, restart, active, keys) == mid + [published];
    } else {
      assert ms + [] == ms;
    }
  }

  lemma {:induction false} LoadingInvModelStep(s: System, e: Event)
    requires LoadingInv(s) && e.ModelStep? && Enabled(s, e)
    ensures LoadingInv(Next(s, e))
  {
    ModelStepFlight(s, e);
    StepPostsCount(InFlight(s), s.model, e.restart, e.active, e.keys);
    LoadingInvMore(s, Next(s, e), StepPosts(s.model, e.restart, e.active, e.keys));
  }

  lemma {:induction false} ModelStepFlight(s: System, e: Event)
    requires e.ModelStep? && Enabled(s, e)
    ensures var t := Next(s, e);
            && InFlight(t) == InFlight(s) + StepPosts(s.model, e.restart, e.active, e.keys)
            && Orders(t) == Orders(s) && t.hud == s.hud
            && t.requested == s.requested && t.activated == s.activated
            && t.model.gameSelected == s.model.gameSelected
  {
  }

  /** Posting messages that activate nothing keeps the invariant. */
  lemma {:induction false} LoadingInvMore(s: System, t: System, posted: seq<UiMessage>)
    requires LoadingInv(s) && InFlight(t) == InFlight(s) + posted
    requires Orders(t) == Orders(s) && t.hud == s.hud && t.requested == s.requested && t.activated == s.activated
    requires t.model.gameSelected == s.model.gameSelected
    requires forall m :: m in posted ==> !m.ActivateScene?
    requires Count(InFlight(s) + posted, IsActivation) == Count(InFlight(s), IsActivation)
    ensures LoadingInv(t)
  {
    assert forall m :: m in InFlight(t) ==> m in InFlight(s) || m in posted;
  }

  lemma {:induction false} LoadingInvPost(s: System, t: System, m: ModelMessage)
    requires LoadingInv(s) && s.requested == s.activated
    requires Orders(t) == Orders(s) + [m] && InFlight(t) == InFlight(s) && t.model == s.model
             && t.activated == s.activated
    requires match m
             case SelectGame(selection) => selection == t.requested == s.requested + 1 && t.hud.stage == Loading
             case ReturnToMenu => t.requested == s.requested && t.hud.stage == MapMenu
             case RestartGame => t.requested == s.requested && t.hud.stage == s.hud.stage
             case RequestExit => false
    ensures LoadingInv(t)
  {
    CountSnoc(Orders(s), m, IsSelect);
    CountZero(Orders(s), IsSelect);
    CountZero(InFlight(s), IsActivation);
    assert Orders(t)[..|Orders(s)|] == Orders(s);
  }

  /** Asking for a restart changes neither the choices under way nor what the model will have. */
  lemma {:induction false} LoadingInvRestart(s: System)
    requires LoadingInv(s)
    ensures LoadingInv(s.(modelInbox := s.modelInbox + [RestartGame]))
  {
    var t := s.(modelInbox := s.modelInbox + [RestartGame]);
    RestartPlay(s, t);
    assert CarriesChoice(t) by {
      assert forall o :: o in Orders(t) ==> o in Orders(s) || o == RestartGame;
      assert InFlight(t) == InFlight(s);
    }
    assert InFlight(t) == InFlight(s);
  }

  lemma {:induction false} RestartPlay(s: System, t: System)
    requires t == s.(modelInbox := s.modelInbox + [RestartGame])
    ensures WillPlay(t) == WillPlay(s) && Selects(t) == Selects(s)
  {
    var orders := Orders(s);
    assert Orders(t) == orders + [RestartGame];
    CountSnoc(orders, RestartGame, IsSelect);
    assert (orders + [RestartGame])[..|orders|] == orders;
  }

  lemma {:induction false} LoadingInvStep(s: System, e: Event)
    requires LoadingInv(s) && Enabled(s, e) && Careful(s, e)
    ensures LoadingInv(Next(s, e))
  {
    var t := Next(s, e);
    match e
    case UiHandle => LoadingInvUiHandle(s);
    case ModelHandle => LoadingInvModelHandle(s);
    case ModelStep(_, _, _) => LoadingInvModelStep(s, e);
    case UiChoose =>
      assert Orders(t) == Orders(s) + [SelectGame(s.requested + 1)];
      LoadingInvPost(s, t, SelectGame(s.requested + 1));
    case UiRestart => LoadingInvRestart(s);
    case UiEscape =>
      if s.hud.stage == Game {
        assert Orders(t) == Orders(s) + [ReturnToMenu];
        LoadingInvPost(s, t, ReturnToMenu);
      } else {
        assert Orders(t) == Orders(s);
        LoadingInvSame(s, t);
      }
    case _ =>
      assert Orders(t) == Orders(s) && InFlight(t) == InFlight(s);
      LoadingInvSame(s, t);
  }

  lemma {:induction false} LoadingInvRun(s: System, events: seq<Event>)
    requires LoadingInv(s) && Legal(s, events) && CarefulRun(s, events)
    ensures LoadingInv(After(s, events))
    decreases |events|
  {
    if events != [] {
      LoadingInvStep(s, events[0]);
      LoadingInvRun(Next(s, events[0]), events[1..]);
    }
  }

  lemma {:induction false} LoadingInvInitial(totalBlocks: Option<nat>)
    ensures LoadingInv(Initial(totalBlocks))
  {
    assert Orders(Initial(totalBlocks)) == [] && InFlight(Initial(totalBlocks)) == [];
  }

  /** A loading screen is honest when a game stands behind it, at the latest once the model has caught up. */
  ghost predicate Honest(s: System) {
    && !Stranded(s)
    && (s.hud.stage == Loading && s.modelInbox == [] && s.modelBatch == [] ==> s.model.gameSelected)
  }

  lemma {:induction false} LoadingInvMeans(s: System)
    requires LoadingInv(s)
    ensures Honest(s)
  {
    assert s.modelInbox == [] && s.modelBatch == [] ==> Orders(s) == [];
  }

  lemma {:induction false} CarefulRunsFrom(s: System, events: seq<Event>)
    requires LoadingInv(s) && Legal(s, events) && CarefulRun(s, events)
    ensures Honest(After(s, events))
  {
    LoadingInvRun(s, events);
    LoadingInvMeans(After(s, events));
  }

  /** In a careful run every loading screen is honest, so no one is ever stranded. */
  lemma {:induction false} CarefulRunsLoad(totalBlocks: Option<nat>, events: seq<Event>)
    requires Legal(Initial(totalBlocks), events) && CarefulRun(Initial(totalBlocks), events)
    ensures Honest(After(Initial(totalBlocks), events))
  {
    LoadingInvInitial(totalBlocks);
    CarefulRunsFrom(Initial(totalBlocks), events);
  }

  // ---------- what a careless Escape leads to ----------

  /** Only deliveries: the user does nothing more, and the model takes no step. */
  predicate IsDelivery(e: Event) { e == UiDrain || e == UiHandle || e == ModelDrain || e == ModelHandle }

  ghost predicate OnlyDeliveries(events: seq<Event>) { forall e :: e in events ==> IsDelivery(e) }

  ghost function HandledAll(h: Hud, ms: seq<UiMessage>): Hud
    decreases |ms|
  {
    if ms == [] then h else HandledAll(Handled(h, ms[0]), ms[1..])
  }

  ghost function ObeyedAll(m: Model, orders: seq<ModelMessage>): Model
    decreases |orders|
  {
    if orders == [] then m else ObeyedAll(Obeyed(m, orders[0]), orders[1..])
  }

  ghost function RepliesAll(m: Model, orders: seq<ModelMessage>): seq<UiMessage>
    decreases |orders|
  {
    if orders == [] then [] else Replies(m, orders[0]) + RepliesAll(Obeyed(m, orders[0]), orders[1..])
  }

  /** The HUD once everything sent so far, in either direction, has been delivered. */
  ghost function HudAtRest(s: System): Hud {
    HandledAll(s.hud, InFlight(s) + RepliesAll(s.model, Orders(s)))
  }

  ghost function ModelAtRest(s: System): Model { ObeyedAll(s.model, Orders(s)) }

  ghost predicate AtRest(s: System) {
    s.uiBatch == [] && s.uiInbox == [] && s.modelBatch == [] && s.modelInbox == []
  }

  /** A delivery changes nothing about how things will be at rest. */
  lemma {:induction false} DeliveryKeeps(s: System, e: Event)
    requires IsDelivery(e) && Enabled(s, e)
    ensures HudAtRest(Next(s, e)) == HudAtRest(s) && ModelAtRest(Next(s, e)) == ModelAtRest(s)
  {
    var t := Next(s, e);
    if e == UiHandle {
      var replies := RepliesAll(s.model, Orders(s));
      assert (InFlight(s) + replies)[0] == s.uiBatch[0];
      assert (InFlight(s) + replies)[1..] == InFlight(t) + replies;
    } else if e == ModelHandle {
      assert Orders(s)[0] == s.modelBatch[0] && Orders(s)[1..] == Orders(t);
      var first, rest := Replies(s.model, s.modelBatch[0]), RepliesAll(t.model, Orders(t));
      ModelHandleInFlight(s);
      assert InFlight(s) + (first + rest) == InFlight(s) + first + rest;
    } else {
      assert Orders(t) == Orders(s) && InFlight(t) == InFlight(s);
    }
  }

  lemma {:induction false} DeliveriesKeep(s: System, events: seq<Event>)
    requires OnlyDeliveries(events) && Legal(s, events)
    ensures HudAtRest(After(s, events)) == HudAtRest(s) && ModelAtRest(After(s, events)) == ModelAtRest(s)
    decreases |events|
  {
    if events != [] {
      DeliveryKeeps(s, events[0]);
      DeliveriesKeep(Next(s, events[0]), events[1..]);
    }
  }

  /** The next delivery, the model's first. */
  function NextDelivery(s: System): Event {
    if s.modelBatch != [] then ModelHandle
    else if s.modelInbox != [] then ModelDrain
    else if s.uiBatch != [] then UiHandle
    else UiDrain
  }

  /** Some deliveries bring everything to rest. */
  lemma {:induction false} DeliveriesEnd(s: System) returns (run: seq<Event>)
    ensures OnlyDeliveries(run) && Legal(s, run) && AtRest(After(s, run))
    decreases |Orders(s)|, |s.modelInbox|, |InFlight(s)|, |s.uiInbox|
  {
    if AtRest(s) {
      return [];
    }
    var e := NextDelivery(s);
    var t := Next(s, e);
    if e == ModelHandle {
      assert Orders(t) == Orders(s)[1..];
    } else {
      assert Orders(t) == Orders(s);
      assert e == UiHandle ==> InFlight(t) == InFlight(s)[1..];
      assert e == UiDrain ==> InFlight(t) == InFlight(s);
    }
    var rest := DeliveriesEnd(t);
    run := [e] + rest;
    assert run[1..] == rest;
  }

  /** With everything delivered, being stranded is a matter of the HUD and the model at rest. */
  ghost predicate StrandedAtRest(s: System) {
    var h := HudAtRest(s);
    h.stage == Loading && h.frames == [] && !h.exitRequested && !ModelAtRest(s).gameSelected
  }

  lemma {:induction false} RestIsNow(s: System)
    requires AtRest(s)
    ensures HudAtRest(s) == s.hud && ModelAtRest(s) == s.model
    ensures Stranded(s) <==> StrandedAtRest(s)
  {
    assert Orders(s) == [] && InFlight(s) + RepliesAll(s.model, []) == [];
  }

  /** Deliveries alone strand the user exactly when they will leave a loading screen, no frame and no game. */
  lemma {:induction false} DeliveriesStrand(s: System)
    ensures (exists run :: OnlyDeliveries(run) && Legal(s, run) && Stranded(After(s, run))) <==> StrandedAtRest(s)
  {
    var run := DeliveriesEnd(s);
    DeliveriesKeep(s, run);
    RestIsNow(After(s, run));
    forall other | OnlyDeliveries(other) && Legal(s, other) && Stranded(After(s, other)) ensures StrandedAtRest(s) {
      DeliveriesKeep(s, other);
      RestIsNow(After(s, other));
    }
  }

  /** Of a list of messages, whether any shows the loading screen. */
  ghost predicate Activates(ms: seq<UiMessage>) { exists m :: m in ms && m.ActivateScene? }

  lemma {:induction false} HandledAllStage(h: Hud, ms: seq<UiMessage>)
    requires !h.exitRequested
    ensures HandledAll(h, ms).stage == (if Activates(ms) then Loading else h.stage) && !HandledAll(h, ms).exitRequested
    decreases |ms|
  {
    if ms != [] {
      HandledStage(h, ms[0]);
      HandledAllStage(Handled(h, ms[0]), ms[1..]);
      assert ms == [ms[0]] + ms[1..];
    }
  }

  lemma {:induction false} ObeyedLast(m: Model, orders: seq<ModelMessage>)
    requires orders != [] && orders[|orders| - 1] == ReturnToMenu
    ensures !ObeyedAll(m, orders).gameSelected
    decreases |orders|
  {
    if |orders| > 1 {
      ObeyedLast(Obeyed(m, orders[0]), orders[1..]);
    } else {
      assert orders[1..] == [];
    }
  }

  /** Replies activate exactly for a choice among the orders, and carry no frames. */
  lemma {:induction false} RepliesActivate(m: Model, orders: seq<ModelMessage>)
    ensures Activates(RepliesAll(m, orders)) <==> exists o :: o in orders && o.SelectGame?
    ensures forall r :: r in RepliesAll(m, orders) ==> !r.PublishFrames?
    decreases |orders|
  {
    if orders != [] {
      var first, rest := Replies(m, orders[0]), RepliesAll(Obeyed(m, orders[0]), orders[1..]);
      RepliesActivate(Obeyed(m, orders[0]), orders[1..]);
      assert orders == [orders[0]] + orders[1..];
      if orders[0].SelectGame? {
        assert first[1] in first + rest && first[1].ActivateScene?;
      }
      assert forall r :: r in first ==> (r.ActivateScene? ==> orders[0].SelectGame?);
      if Activates(rest) {
        var r :| r in rest && r.ActivateScene?;
        assert r in first + rest;
      }
    }
  }

  lemma {:induction false} CountSome<T(!new)>(xs: seq<T>, p: T -> bool)
    ensures Count(xs, p) > 0 <==> exists x :: x in xs && p(x)
  {
    if xs != [] {
      CountSome(xs[..|xs| - 1], p);
      assert xs == xs[..|xs| - 1] + [xs[|xs| - 1]];
    }
  }

  /** What Escape from a game leaves under way. */
  lemma {:induction false} EscapeLeaves(s: System)
    requires Enabled(s, UiEscape) && s.hud.stage == Game
    ensures var t := Next(s, UiEscape);
            && InFlight(t) == InFlight(s) && Orders(t) == Orders(s) + [ReturnToMenu] && t.model == s.model
            && t.hud.stage == MapMenu && !t.hud.exitRequested && t.hud.frames == []
  {
  }

  lemma {:induction false} UnderWay(s: System, t: System)
    requires Orders(t) == Orders(s) + [ReturnToMenu] && InFlight(t) == InFlight(s) && t.model == s.model
    ensures Activates(InFlight(t) + RepliesAll(t.model, Orders(t))) <==> Selects(s) + Activations(s) > 0
  {
    RepliesActivate(t.model, Orders(t));
    CountSome(Orders(s), IsSelect);
    CountSome(InFlight(s), IsActivation);
    var ms, replies := InFlight(t), RepliesAll(t.model, Orders(t));
    assert forall m :: m in ms + replies <==> m in ms || m in replies;
    assert forall o :: o in Orders(t) <==> o in Orders(s) || o == ReturnToMenu;
  }

  /**
   * In a careful run so far, leaving a game can strand the user, with nothing but deliveries to follow, exactly when a
   * choice is still waiting for its activation and no frame of that choice will be left once all is delivered.
   */
  lemma {:induction false} CarelessEscapeStrands(s: System)
    requires LoadingInv(s) && Enabled(s, UiEscape) && s.hud.stage == Game
    ensures var t := Next(s, UiEscape);
            (exists run :: OnlyDeliveries(run) && Legal(t, run) && Stranded(After(t, run)))
            <==> !Careful(s, UiEscape) && HudAtRest(t).frames == []
  {
    var t := Next(s, UiEscape);
    EscapeLeaves(s);
    DeliveriesStrand(t);
    HandledAllStage(t.hud, InFlight(t) + RepliesAll(t.model, Orders(t)));
    ObeyedLast(t.model, Orders(t));
    UnderWay(s, t);
  }

  lemma {:induction false} HandledAllSplit(h: Hud, a: seq<UiMessage>, b: seq<UiMessage>)
    ensures HandledAll(h, a + b) == HandledAll(HandledAll(h, a), b)
    decreases |a|
  {
    if a == [] {
      assert a + b == b;
    } else {
      assert (a + b)[0] == a[0] && (a + b)[1..] == a[1..] + b;
      HandledAllSplit(Handled(h, a[0]), a[1..], b);
    }
  }

  lemma {:induction false} NothingPublished(h: Hud, ms: seq<UiMessage>)
    requires (forall m :: m in ms ==> !m.PublishFrames?) && (h.frames == [] || Activates(ms))
    ensures HandledAll(h, ms).frames == []
    decreases |ms|
  {
    if ms != [] {
      assert ms == [ms[0]] + ms[1..];
      NothingPublished(Handled(h, ms[0]), ms[1..]);
    }
  }

  /** In particular, when the model has not yet come to the choice. */
  lemma {:induction false} UnhandledChoiceStrands(s: System)
    requires LoadingInv(s) && Enabled(s, UiEscape) && s.hud.stage == Game
    requires exists o :: o in Orders(s) && o.SelectGame?
    ensures var t := Next(s, UiEscape);
            exists run :: OnlyDeliveries(run) && Legal(t, run) && Stranded(After(t, run))
  {
    var t := Next(s, UiEscape);
    EscapeLeaves(s);
    CarelessEscapeStrands(s);
    CountSome(Orders(s), IsSelect);
    RepliesActivate(t.model, Orders(t));
    assert forall o :: o in Orders(s) ==> o in Orders(t);
    HandledAllSplit(t.hud, InFlight(t), RepliesAll(t.model, Orders(t)));
    NothingPublished(HandledAll(t.hud, InFlight(t)), RepliesAll(t.model, Orders(t)));
  }
}
