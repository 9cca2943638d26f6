/** What Escape leads to, screen by screen: the root menu, no game, or the end of the program. */
module HudEscape {
  import opened Prelude
  import opened HudState
  import opened HudProtocol
  import opened HudLoading

  // ---------- back to the root menu ----------

  /** How often Escape must be pressed to get to the root menu from a screen that is not loading. */
  function ToRoot(h: Hud): nat {
    match h.stage
    case ModeMenu => 0
    case MapMenu => 1
    case OptionsMenu => 1
    case CourseMenu => 2
    case ControlsMenu => h.controlsDepth + 1
    case Game => 2
    case Loading => 0
  }

  function Escapes(n: nat): seq<Event> { seq(n, i => UiEscape) }

  /**
   * From every other screen exactly that many Escapes lead to the root menu, and from a menu they tell the model
   * nothing.
   */
  lemma {:induction false} EscapesReachRoot(s: System, n: nat)
    requires s.uiBatch == [] && s.hud.stage != Loading && n <= ToRoot(s.hud)
    ensures Legal(s, Escapes(n))
    ensures After(s, Escapes(n)).hud.stage == ModeMenu <==> n == ToRoot(s.hud)
    ensures s.hud.stage != Game ==>
              After(s, Escapes(n)).modelInbox == s.modelInbox && After(s, Escapes(n)).hud.frames == s.hud.frames
    ensures After(s, Escapes(n)).hud.exitRequested ==> s.hud.exitRequested
    decreases n
  {
    if n > 0 {
      var t := Next(s, UiEscape);
      EscapesReachRoot(t, n - 1);
      assert Escapes(n)[0] == UiEscape && Escapes(n)[1..] == Escapes(n - 1);
    } else {
      assert Escapes(0) == [];
    }
  }

  /** On the loading screen Escape does nothing. */
  lemma {:induction false} EscapeWaits(s: System, n: nat)
    requires s.uiBatch == [] && s.hud.stage == Loading
    ensures Legal(s, Escapes(n)) && After(s, Escapes(n)) == s
    decreases n
  {
    if n > 0 {
      assert Next(s, UiEscape) == s;
      EscapeWaits(s, n - 1);
      assert Escapes(n)[0] == UiEscape && Escapes(n)[1..] == Escapes(n - 1);
    }
  }

  /** The way through the menus from the root to another one. */
  function MovesTo(stage: Stage): seq<Event> {
    if stage == CourseMenu then [UiGo(MapMenu), UiGo(CourseMenu)] else [UiGo(stage)]
  }

  /** Every menu can be opened from the root, and as many Escapes undo the way there completely. */
  lemma {:induction false} MenusAndBack(s: System, stage: Stage)
    requires s.uiBatch == [] && s.hud.stage == ModeMenu && s.hud.controlsDepth == 0
    requires stage !in {ModeMenu, Loading, Game}
    ensures Legal(s, MovesTo(stage)) && After(s, MovesTo(stage)) == s.(hud := s.hud.(stage := stage))
    ensures var back := MovesTo(stage) + Escapes(|MovesTo(stage)|); Legal(s, back) && After(s, back) == s
  {
    var t := Next(s, UiGo(if stage == CourseMenu then MapMenu else stage));
    assert Escapes(1) == [UiEscape] && Escapes(2) == [UiEscape, UiEscape];
    if stage == CourseMenu {
      var u := Next(t, UiGo(CourseMenu));
      assert Next(Next(u, UiEscape), UiEscape) == s;
      assert MovesTo(stage) + Escapes(2) == [UiGo(MapMenu), UiGo(CourseMenu), UiEscape, UiEscape];
      FourSteps(s, UiGo(MapMenu), UiGo(CourseMenu), UiEscape, UiEscape);
      TwoSteps(s, UiGo(MapMenu), UiGo(CourseMenu));
    } else {
      assert Next(t, UiEscape) == s;
      assert MovesTo(stage) + Escapes(1) == [UiGo(stage), UiEscape];
      TwoSteps(s, UiGo(stage), UiEscape);
      assert [UiGo(stage)][1..] == [];
    }
  }

  lemma {:induction false} TwoSteps(s: System, a: Event, b: Event)
    requires Enabled(s, a) && Enabled(Next(s, a), b)
    ensures Legal(s, [a, b]) && After(s, [a, b]) == Next(Next(s, a), b)
  {
    assert [a, b][1..] == [b] && [b][1..] == [];
    assert After(Next(s, a), [b]) == After(Next(Next(s, a), b), []);
  }

  lemma {:induction false} FourSteps(s: System, a: Event, b: Event, c: Event, d: Event)
    requires Enabled(s, a) && Enabled(Next(s, a), b) && Enabled(Next(Next(s, a), b), c)
    requires Enabled(Next(Next(Next(s, a), b), c), d)
    ensures Legal(s, [a, b, c, d]) && After(s, [a, b, c, d]) == Next(Next(Next(Next(s, a), b), c), d)
  {
    assert [a, b, c, d][1..] == [b, c, d] && [b, c, d][1..] == [c, d];
    TwoSteps(Next(Next(s, a), b), c, d);
  }

  // ---------- the last order decides ----------

  /** Neither the user nor the session does anything: messages are delivered, frames shown and steps taken. */
  predicate Unattended(e: Event) { IsDelivery(e) || e.UiPresent? || e.ModelStep? }

  ghost predicate AllUnattended(events: seq<Event>) { forall e :: e in events ==> Unattended(e) }

  /** The order is still to be obeyed as the last one, or has been and the model is as it left it. */
  ghost predicate Settles(s: System, last: ModelMessage, done: Model -> bool) {
    if Orders(s) == [] then done(s.model) else Orders(s)[|Orders(s)| - 1] == last
  }

  /** Obeying the order brings it about, and no step undoes it. */
  ghost predicate Lasts(last: ModelMessage, done: Model -> bool) {
    && (forall m :: done(Obeyed(m, last)))
    && (forall m, restart, active :: done(m) && !m.finished ==> done(Stepped(m, restart, active)))
  }

  lemma {:induction false} SettlesObeyed(s: System, last: ModelMessage, done: Model -> bool)
    requires Settles(s, last, done) && Lasts(last, done) && s.modelBatch != []
    ensures Settles(Next(s, ModelHandle), last, done)
  {
    var orders, t := Orders(s), Next(s, ModelHandle);
    assert orders[1..] == Orders(t) && orders[0] == s.modelBatch[0];
    if Orders(t) == [] {
      assert |orders| == 1 && t.model == Obeyed(s.model, last);
    } else {
      assert Orders(t)[|Orders(t)| - 1] == orders[|orders| - 1];
    }
  }

  lemma {:induction false} SettlesStep(s: System, e: Event, last: ModelMessage, done: Model -> bool)
    requires Settles(s, last, done) && Lasts(last, done) && Unattended(e) && Enabled(s, e)
    ensures Settles(Next(s, e), last, done)
  {
    if e == ModelHandle {
      SettlesObeyed(s, last, done);
    } else {
      var t := Next(s, e);
      assert Orders(t) == Orders(s);
      assert t.model == if e.ModelStep? then Stepped(s.model, e.restart, e.active) else s.model;
    }
  }

  lemma {:induction false} SettlesRun(s: System, events: seq<Event>, last: ModelMessage, done: Model -> bool)
    requires Settles(s, last, done) && AllUnattended(events) && Legal(s, events)
    requires Lasts(last, done)
    ensures Settles(After(s, events), last, done)
    decreases |events|
  {
    if events != [] {
      SettlesStep(s, events[0], last, done);
      SettlesRun(Next(s, events[0]), events[1..], last, done);
    }
  }

  /** The model has obeyed everything sent to it, and ended its loop. */
  ghost predicate Over(s: System) {
    s.model.finished && forall restart, active, keys :: !Enabled(s, ModelStep(restart, active, keys))
  }

  /**
   * Escape on the root menu ends the program: whatever was under way, however deliveries, frames and steps interleave,
   * once the model has obeyed all orders it takes no step any more; and deliveries alone get it there.
   */
  lemma {:induction false} ExitEnds(s: System, events: seq<Event>) returns (deliveries: seq<Event>)
    requires Enabled(s, UiEscape) && s.hud.stage == ModeMenu
    requires AllUnattended(events) && Legal(Next(s, UiEscape), events)
    ensures Next(s, UiEscape).hud == s.hud.(stage := Loading, exitRequested := true)
    ensures var u := After(Next(s, UiEscape), events);
            && (Orders(u) == [] ==> Over(u))
            && OnlyDeliveries(deliveries) && Legal(u, deliveries)
            && AtRest(After(u, deliveries)) && Over(After(u, deliveries))
  {
    var t := Next(s, UiEscape);
    var done := (m: Model) => m.finished;
    assert Orders(t) == Orders(s) + [RequestExit];
    SettlesRun(t, events, RequestExit, done);
    var u := After(t, events);
    deliveries := DeliveriesEnd(u);
    SettlesRun(u, deliveries, RequestExit, done);
    assert Orders(After(u, deliveries)) == [];
  }

  /** The HUD remembers that it is exiting until it is reset. */
  lemma {:induction false} ExitIsRemembered(h: Hud, ms: seq<UiMessage>)
    ensures HandledAll(h, ms).exitRequested <==> h.exitRequested && forall m :: m in ms ==> !m.ResetHud?
    decreases |ms|
  {
    if ms != [] {
      ExitIsRemembered(Handled(h, ms[0]), ms[1..]);
      assert ms == [ms[0]] + ms[1..];
    }
  }

  /** Escape from a game leaves it: likewise no game is selected once the model has obeyed all orders. */
  lemma {:induction false} LeavingDeselects(s: System, events: seq<Event>) returns (deliveries: seq<Event>)
    requires Enabled(s, UiEscape) && s.hud.stage == Game
    requires AllUnattended(events) && Legal(Next(s, UiEscape), events)
    ensures var u := After(Next(s, UiEscape), events);
            && (Orders(u) == [] ==> !u.model.gameSelected)
            && OnlyDeliveries(deliveries) && Legal(u, deliveries)
            && AtRest(After(u, deliveries)) && !After(u, deliveries).model.gameSelected
  {
    var t := Next(s, UiEscape);
    var done := (m: Model) => !m.gameSelected;
    assert Orders(t) == Orders(s) + [ReturnToMenu];
    SettlesRun(t, events, ReturnToMenu, done);
    var u := After(t, events);
    deliveries := DeliveriesEnd(u);
    SettlesRun(u, deliveries, ReturnToMenu, done);
    assert Orders(After(u, deliveries)) == [];
  }

  /** A choice of game stands: likewise that game is selected once the model has obeyed all orders. */
  lemma {:induction false} ChoiceStands(s: System, events: seq<Event>) returns (deliveries: seq<Event>)
    requires Enabled(s, UiChoose)
    requires AllUnattended(events) && Legal(Next(s, UiChoose), events)
    ensures var u := After(Next(s, UiChoose), events);
            && (Orders(u) == [] ==> u.model.gameSelected && u.model.selection == s.requested + 1)
            && OnlyDeliveries(deliveries) && Legal(u, deliveries) && AtRest(After(u, deliveries))
            && After(u, deliveries).model.gameSelected && After(u, deliveries).model.selection == s.requested + 1
  {
    var t := Next(s, UiChoose);
    var last := SelectGame(s.requested + 1);
    var done := (m: Model) => m.gameSelected && m.selection == s.requested + 1;
    assert Orders(t) == Orders(s) + [last];
    SettlesRun(t, events, last, done);
    var u := After(t, events);
    deliveries := DeliveriesEnd(u);
    SettlesRun(u, deliveries, last, done);
    assert Orders(After(u, deliveries)) == [];
  }

  // ---------- restarting ----------

  /** A restart is still to be obeyed, or an epoch later than this one has begun. */
  ghost predicate Renews(s: System, epoch: nat) {
    s.model.epoch >= epoch && (RestartGame !in Orders(s) ==> s.model.epoch > epoch)
  }

  lemma {:induction false} RenewsStep(s: System, e: Event, epoch: nat)
    requires Renews(s, epoch) && Enabled(s, e)
    ensures Renews(Next(s, e), epoch)
  {
    var t := Next(s, e);
    if e == ModelHandle {
      assert Orders(s) == [s.modelBatch[0]] + Orders(t);
    } else {
      assert Orders(s) <= Orders(t);
    }
  }

  lemma {:induction false} RenewsRun(s: System, events: seq<Event>, epoch: nat)
    requires Renews(s, epoch) && Legal(s, events)
    ensures Renews(After(s, events), epoch)
    decreases |events|
  {
    if events != [] {
      RenewsStep(s, events[0], epoch);
      RenewsRun(Next(s, events[0]), events[1..], epoch);
    }
  }

  /** A restart is never lost: whatever else happens, once it has been obeyed a later epoch has begun. */
  lemma {:induction false} RestartRenews(s: System, events: seq<Event>)
    requires Enabled(s, UiRestart) && Legal(Next(s, UiRestart), events)
    ensures var u := After(Next(s, UiRestart), events);
            RestartGame !in Orders(u) ==> u.model.epoch > s.model.epoch
  {
    assert RestartGame in Orders(Next(s, UiRestart));
    RenewsRun(Next(s, UiRestart), events, s.model.epoch);
  }
}
