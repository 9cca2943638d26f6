/** Action-to-video sessions that take turns on one loaded pipeline and its single random generator. */
module SharedPipeline {
  import opened Prelude
  import opened ActionInput

  /** What generating one block yields, and the cache and generator state it leaves. */
  datatype Generated<V, C, R> = Generated(video: V, cache: C, rng: R)

  /** The model: a block depends on its index, the session's cache, the generator state and the action alone. */
  type Generate<!V, !C, !R, !A> = (nat, C, R, A) -> Generated<V, C, R>

  /** What a session fixes at creation. */
  datatype Config<!V, !C, !R, !A> =
    Config(seedFrames: V, initialCache: C, initialRng: R, totalBlocks: nat, mapper: Snapshot -> A)

  datatype Session<C, R> = Session(held: Held, seedEmitted: bool, actions: nat, rng: R, cache: Option<C>)

  datatype StepError = OutOfSequence | CacheClosed

  function FreshSession<V, C, R, A>(config: Config<V, C, R, A>): Session<C, R> {
    Session(NOTHING_HELD, false, 0, config.initialRng, Some(config.initialCache))
  }

  /** One step of one session: the new session and what it outputs. The shared generator is not an input. */
  function Stepped<V, C, R, A>(config: Config<V, C, R, A>, generate: Generate<V, C, R, A>, s: Session<C, R>,
                               index: nat, events: seq<InputEvent>): (Session<C, R>, Result<V, StepError>) {
    if index == 0 then
      if s.seedEmitted || s.actions != 0 then (s, Err(OutOfSequence))
      else (s.(held := Consumed(s.held, events).0, seedEmitted := true), Ok(config.seedFrames))
    else if index != s.actions + 1 then (s, Err(OutOfSequence))
    else
      var (held, snapshot) := Consumed(s.held, events);
      if s.cache.None? then (s.(held := held), Err(CacheClosed))
      else
        var g := generate(index, s.cache.value, s.rng, config.mapper(snapshot));
        (s.(held := held, cache := Some(g.cache), rng := g.rng, actions := s.actions + 1), Ok(g.video))
  }

  function Closed<C, R>(s: Session<C, R>): Session<C, R> { s.(cache := None, held := NOTHING_HELD) }

  datatype Op = Step(index: nat, events: seq<InputEvent>) | Reset | Close

  /** The session and its outputs after a list of operations on it alone. */
  function Solo<V, C, R, A>(config: Config<V, C, R, A>, generate: Generate<V, C, R, A>, ops: seq<Op>)
    : (Session<C, R>, seq<Result<V, StepError>>)
  {
    SoloFrom(config, generate, FreshSession(config), ops)
  }

  function SoloFrom<V, C, R, A>(config: Config<V, C, R, A>, generate: Generate<V, C, R, A>, start: Session<C, R>,
                                ops: seq<Op>)
    : (Session<C, R>, seq<Result<V, StepError>>)
  {
    if ops == [] then (start, [])
    else
      var (s, outputs) := SoloFrom(config, generate, start, ops[..|ops| - 1]);
      match ops[|ops| - 1]
      case Step(index, events) =>
        var (t, output) := Stepped(config, generate, s, index, events);
        (t, outputs + [output])
      case Reset => (FreshSession(config), outputs)
      case Close => (Closed(s), outputs)
  }

  // ---------- what a session outputs ----------

  /**
   * A step is in order when it is the first of all, or numbered after the action steps so far; then it fails only for
   * want of a cache. A step that fails makes no block and, out of order, changes nothing.
   */
  lemma {:induction false} StepFails<V(!new), C(!new), R(!new), A(!new)>(
    config: Config<V, C, R, A>, generate: Generate<V, C, R, A>, s: Session<C, R>, index: nat, events: seq<InputEvent>)
    ensures var (t, output) := Stepped(config, generate, s, index, events);
            && (output == Err(OutOfSequence)
                <==> if index == 0 then s.seedEmitted || s.actions > 0 else index != s.actions + 1)
            && (output == Err(CacheClosed) <==> index > 0 && index == s.actions + 1 && s.cache.None?)
            && (output == Err(OutOfSequence) ==> t == s)
            && (output == Err(CacheClosed) ==> t == s.(held := Consumed(s.held, events).0))
  {
  }

  /** Whatever was held before, a closed session makes no block any more until it is reset. */
  lemma {:induction false} ClosedMakesNoBlock<V(!new), C(!new), R(!new), A(!new)>(
    config: Config<V, C, R, A>, generate: Generate<V, C, R, A>, s: Session<C, R>, ops: seq<Op>, held: Held)
    requires forall op :: op in ops ==> !op.Reset?
    ensures Closed(s.(held := held)) == Closed(s)
    ensures var (t, outputs) := SoloFrom(config, generate, Closed(s), ops);
            && t.cache.None? && t.rng == s.rng && t.actions == s.actions
            && forall output :: output in outputs && output.Ok? ==> output.value == config.seedFrames
  {
    if ops != [] {
      ClosedMakesNoBlock(config, generate, s, ops[..|ops| - 1], held);
    }
  }

  /** What a rollout carries from one batch of events to the next. */
  datatype Carried<C, R> = Carried(held: Held, cache: C, rng: R)

  /** After the batches: the first only shows the seed, and each later one makes a block from what was carried. */
  function CarriedOver<V, C, R, A>(config: Config<V, C, R, A>, generate: Generate<V, C, R, A>,
                                   batches: seq<seq<InputEvent>>): Carried<C, R>
  {
    if batches == [] then Carried(NOTHING_HELD, config.initialCache, config.initialRng)
    else
      var k, before := |batches| - 1, CarriedOver(config, generate, batches[..|batches| - 1]);
      var held := Consumed(before.held, batches[k]).0;
      if k == 0 then before.(held := held)
      else
        var g := BlockOf(config, generate, before, k, batches[k]);
        Carried(held, g.cache, g.rng)
  }

  function BlockOf<V, C, R, A>(config: Config<V, C, R, A>, generate: Generate<V, C, R, A>, before: Carried<C, R>,
                               k: nat, events: seq<InputEvent>): Generated<V, C, R>
  {
    generate(k, before.cache, before.rng, config.mapper(Consumed(before.held, events).1))
  }

  /** What the `k`-th step shows. */
  function Shown<V, C, R, A>(config: Config<V, C, R, A>, generate: Generate<V, C, R, A>,
                             batches: seq<seq<InputEvent>>, k: nat): V
    requires k < |batches|
  {
    if k == 0 then config.seedFrames
    else BlockOf(config, generate, CarriedOver(config, generate, batches[..k]), k, batches[k]).video
  }

  function StepsOf(batches: seq<seq<InputEvent>>): (ops: seq<Op>)
    ensures |ops| == |batches|
  {
    if batches == [] then []
    else StepsOf(batches[..|batches| - 1]) + [Step(|batches| - 1, batches[|batches| - 1])]
  }

  /**
   * Steps in sequence all succeed: the seed frames first, then block after block, each made from the cache and
   * generator state the block before it left and from the action its own events and the keys still held amount to.
   */
  lemma {:induction false} SequenceSucceeds<V(!new), C(!new), R(!new), A(!new)>(
    config: Config<V, C, R, A>, generate: Generate<V, C, R, A>, batches: seq<seq<InputEvent>>)
    ensures var (s, outputs) := Solo(config, generate, StepsOf(batches));
            var c := CarriedOver(config, generate, batches);
            && s == Session(c.held, |batches| > 0, if |batches| > 0 then |batches| - 1 else 0, c.rng, Some(c.cache))
            && |outputs| == |batches|
            && forall k :: 0 <= k < |batches| ==> outputs[k] == Ok(Shown(config, generate, batches, k))
  {
    if batches != [] {
      var k := |batches| - 1;
      var init := batches[..k];
      var before := CarriedOver(config, generate, init);
      SequenceSucceeds(config, generate, init);
      StepInSequence(config, generate, before, k, batches[k]);
      var outputs := Solo(config, generate, StepsOf(init)).1;
      LastStep(config, generate, StepsOf(init), k, batches[k]);
      forall i | 0 <= i < k ensures Shown(config, generate, batches, i) == Shown(config, generate, init, i) {
        assert batches[..i] == init[..i];
      }
    }
  }

  predicate HasAllBlocks<V, C, R, A>(config: Config<V, C, R, A>, actions: nat) { actions >= config.totalBlocks }

  /** So a session is finished with the seed and as many blocks as were asked for, and not before. */
  lemma {:induction false} FinishesWithLastBlock<V(!new), C(!new), R(!new), A(!new)>(
    config: Config<V, C, R, A>, generate: Generate<V, C, R, A>, batches: seq<seq<InputEvent>>)
    requires config.totalBlocks > 0
    ensures var (s, outputs) := Solo(config, generate, StepsOf(batches));
            HasAllBlocks(config, s.actions) <==> |outputs| > config.totalBlocks
  {
    SequenceSucceeds(config, generate, batches);
  }

  /** A session in sequence before its `k`-th step. */
  function InSequence<C, R>(c: Carried<C, R>, k: nat): Session<C, R> {
    Session(c.held, k > 0, if k > 0 then k - 1 else 0, c.rng, Some(c.cache))
  }

  lemma {:induction false} StepInSequence<V(!new), C(!new), R(!new), A(!new)>(
    config: Config<V, C, R, A>, generate: Generate<V, C, R, A>, c: Carried<C, R>, k: nat, events: seq<InputEvent>)
    ensures var held, g := Consumed(c.held, events).0, BlockOf(config, generate, c, k, events);
            Stepped(config, generate, InSequence(c, k), k, events)
            == if k == 0 then (InSequence(c.(held := held), 1), Ok(config.seedFrames))
               else (InSequence(Carried(held, g.cache, g.rng), k + 1), Ok(g.video))
  {
  }

  lemma {:induction false} LastStep<V(!new), C(!new), R(!new), A(!new)>(
    config: Config<V, C, R, A>, generate: Generate<V, C, R, A>, ops: seq<Op>, k: nat, events: seq<InputEvent>)
    ensures var (s, outputs) := Solo(config, generate, ops);
            var (t, output) := Stepped(config, generate, s, k, events);
            Solo(config, generate, ops + [Step(k, events)]) == (t, outputs + [output])
  {
    assert (ops + [Step(k, events)])[..|ops|] == ops;
  }

  // ---------- the objects ----------

  class Pipeline<R> {
    /** State of the model's one random generator. */
    var rng: R

    constructor (rng: R)
      ensures this.rng == rng
    {
      this.rng := rng;
    }
  }

  class Action2VModelLoop<V, C, R, A> {
    const config: Config<V, C, R, A>
    const generate: Generate<V, C, R, A>
    const pipeline: Pipeline<R>
    const input: ActionEventAccumulator
    var seedEmitted: bool
    var actions: nat
    var rngState: R
    var cache: Option<C>

    ghost function View(): Session<C, R>
      reads this, input
    {
      Session(input.View(), seedEmitted, actions, rngState, cache)
    }

    constructor (config: Config<V, C, R, A>, generate: Generate<V, C, R, A>, pipeline: Pipeline<R>)
      ensures View() == FreshSession(config) && fresh(input)
      ensures this.config == config && this.generate == generate && this.pipeline == pipeline
    {
      this.config, this.generate, this.pipeline := config, generate, pipeline;
      seedEmitted, actions := false, 0;
      rngState, cache := config.initialRng, Some(config.initialCache);
      var accumulator := new ActionEventAccumulator();
      input := accumulator;
    }

    /** Swap this session's generator state in, generate, and swap it out; whatever was there before is not used. */
    method TakeStep(index: nat, events: seq<InputEvent>) returns (output: Result<V, StepError>)
      modifies this, input, pipeline
      ensures (View(), output) == Stepped(config, generate, old(View()), index, events)
    {
      if index == 0 {
        if seedEmitted || actions != 0 {
          return Err(OutOfSequence);
        }
        var _ := input.Consume(events);
        seedEmitted := true;
        return Ok(config.seedFrames);
      }
      if index != actions + 1 {
        return Err(OutOfSequence);
      }
      var snapshot := input.Consume(events);
      var action := config.mapper(snapshot);
      if cache.None? {
        return Err(CacheClosed);
      }
      pipeline.rng := rngState;
      var g := generate(index, cache.value, pipeline.rng, action);
      pipeline.rng := g.rng;
      cache := Some(g.cache);
      rngState := pipeline.rng;
      actions := actions + 1;
      output := Ok(g.video);
    }

    predicate IsFinished()
      reads this
    {
      HasAllBlocks(config, actions)
    }

    method ResetLoop()
      modifies this, input
      ensures View() == FreshSession(config)
    {
      input.Reset();
      seedEmitted := false;
      actions := 0;
      rngState := config.initialRng;
      cache := None;
      cache := Some(config.initialCache);
    }

    method CloseLoop()
      modifies this, input
      ensures View() == Closed(old(View()))
    {
      cache := None;
      input.Reset();
    }
  }

  // ---------- any number of sessions, interleaved between any two of their accesses ----------

  /**
   * Where a session's thread stands: outside any call; at the pipeline's lock; past it; with the generator set; with
   * a block made; with the generator's state saved; past the lock again; or at the lock, or past it, to rebuild its
   * cache.
   */
  datatype Point<V, A> =
    | Outside
    | Waiting(index: nat, action: A)
    | Entered(index: nat, action: A)
    | Loaded(index: nat, action: A)
    | Made(video: V)
    | Saved(video: V)
    | Left(video: V)
    | AwaitingCache
    | BuildingCache

  datatype Slot<V, C, R, A> = Slot(session: Session<C, R>, at: Point<V, A>, outputs: seq<Result<V, StepError>>)

  /** All sessions, who holds the lock, and the state of the generator they share. */
  datatype World<V, C, R, A> = World(slots: seq<Slot<V, C, R, A>>, lock: Option<nat>, shared: R)

  /** A session is called from outside, or its thread goes on to its next access of the pipeline. */
  datatype Event = Call(id: nat, op: Op) | Go(id: nat)

  predicate AtLock<V, A>(p: Point<V, A>) { p.Waiting? || p.AwaitingCache? }

  /** Between taking the lock and leaving it. */
  predicate Inside<V, A>(p: Point<V, A>) { p.Entered? || p.Loaded? || p.Made? || p.Saved? || p.BuildingCache? }

  /** The part of a call before the lock; a call that needs no generation is over at once. */
  function Called<V, C, R, A>(config: Config<V, C, R, A>, generate: Generate<V, C, R, A>, slot: Slot<V, C, R, A>,
                              op: Op): Slot<V, C, R, A>
  {
    var s := slot.session;
    match op
    case Step(index, events) =>
      if index > 0 && index == s.actions + 1 && s.cache.Some? then
        var (held, snapshot) := Consumed(s.held, events);
        slot.(session := s.(held := held), at := Waiting(index, config.mapper(snapshot)))
      else
        var (u, output) := Stepped(config, generate, s, index, events);
        slot.(session := u, outputs := slot.outputs + [output])
    case Reset =>
      slot.(session := Session(NOTHING_HELD, false, 0, config.initialRng, s.cache), at := AwaitingCache)
    case Close => slot.(session := Closed(s))
  }

  /** One access: what it makes of the session and of the shared generator. */
  function Gone<V, C, R, A>(config: Config<V, C, R, A>, generate: Generate<V, C, R, A>, slot: Slot<V, C, R, A>,
                            shared: R): (Slot<V, C, R, A>, R)
    requires slot.at.Loaded? ==> slot.session.cache.Some?
  {
    var s := slot.session;
    match slot.at
    case Outside => (slot, shared)
    case Waiting(index, action) => (slot.(at := Entered(index, action)), shared)
    case Entered(index, action) => (slot.(at := Loaded(index, action)), s.rng)
    case Loaded(index, action) =>
      var g := generate(index, s.cache.value, shared, action);
      (slot.(session := s.(cache := Some(g.cache)), at := Made(g.video)), g.rng)
    case Made(video) => (slot.(session := s.(rng := shared), at := Saved(video)), shared)
    case Saved(video) => (slot.(at := Left(video)), shared)
    case Left(video) =>
      (slot.(session := s.(actions := s.actions + 1), at := Outside, outputs := slot.outputs + [Ok(video)]), shared)
    case AwaitingCache => (slot.(at := BuildingCache), shared)
    case BuildingCache => (slot.(session := s.(cache := Some(config.initialCache)), at := Outside), shared)
  }

  /** Who holds the lock after session `id` goes on from this point. */
  function LockAfter<V, A>(lock: Option<nat>, id: nat, p: Point<V, A>): Option<nat> {
    if AtLock(p) then Some(id) else if p.Saved? || p.BuildingCache? then None else lock
  }

  /** A session is called only from outside, and passes the lock only while nobody holds it, if there is a lock. */
  predicate Enabled<V, C, R, A>(locking: bool, w: World<V, C, R, A>, e: Event) {
    && e.id < |w.slots|
    && match e
       case Call(id, _) => w.slots[id].at.Outside?
       case Go(id) => !w.slots[id].at.Outside? && (locking && AtLock(w.slots[id].at) ==> w.lock.None?)
  }

  /** Sessions in the middle of generating have a cache to generate with. */
  predicate HasCache<V, C, R, A>(slot: Slot<V, C, R, A>) {
    slot.at.Waiting? || slot.at.Entered? || slot.at.Loaded? ==> slot.session.cache.Some?
  }

  function Happened<V, C, R, A>(configs: seq<Config<V, C, R, A>>, generate: Generate<V, C, R, A>, w: World<V, C, R, A>,
                                e: Event): World<V, C, R, A>
    requires |w.slots| == |configs| && e.id < |configs| && HasCache(w.slots[e.id])
  {
    match e
    case Call(id, op) => w.(slots := w.slots[id := Called(configs[id], generate, w.slots[id], op)])
    case Go(id) =>
      var (slot, shared) := Gone(configs[id], generate, w.slots[id], w.shared);
      World(w.slots[id := slot], LockAfter(w.lock, id, w.slots[id].at), shared)
  }

  function NewSlot<V, C, R, A>(config: Config<V, C, R, A>): Slot<V, C, R, A> { Slot(FreshSession(config), Outside, []) }

  function Start<V, C, R, A>(configs: seq<Config<V, C, R, A>>, shared: R): World<V, C, R, A> {
    World(seq(|configs|, i requires 0 <= i < |configs| => NewSlot(configs[i])), None, shared)
  }

  /** The world after a run of events; none when one of them could not happen. */
  function After<V, C, R, A>(locking: bool, configs: seq<Config<V, C, R, A>>, generate: Generate<V, C, R, A>, shared: R,
                             events: seq<Event>): (w: Option<World<V, C, R, A>>)
    ensures w.Some? ==> |w.value.slots| == |configs| && forall i :: 0 <= i < |configs| ==> HasCache(w.value.slots[i])
  {
    if events == [] then Some(Start(configs, shared))
    else
      match After(locking, configs, generate, shared, events[..|events| - 1])
      case None => None
      case Some(w) =>
        var e := events[|events| - 1];
        if Enabled(locking, w, e) then Some(Happened(configs, generate, w, e)) else None
  }

  /** The operations a session has been called with, in order. */
  function CallsOf(events: seq<Event>, id: nat): seq<Op> {
    if events == [] then []
    else
      var e := events[|events| - 1];
      CallsOf(events[..|events| - 1], id) + if e.Call? && e.id == id then [e.op] else []
  }

  /** What becomes of a session if it is now left alone until its call is over. */
  function Completed<V, C, R, A>(config: Config<V, C, R, A>, generate: Generate<V, C, R, A>, slot: Slot<V, C, R, A>,
                                 shared: R)
    : (Session<C, R>, seq<Result<V, StepError>>)
    requires HasCache(slot)
  {
    var s := slot.session;
    match slot.at
    case Outside => (s, slot.outputs)
    case Waiting(index, action) => Generating(generate, s, index, action, s.rng, slot.outputs)
    case Entered(index, action) => Generating(generate, s, index, action, s.rng, slot.outputs)
    case Loaded(index, action) => Generating(generate, s, index, action, shared, slot.outputs)
    case Made(video) => (s.(rng := shared, actions := s.actions + 1), slot.outputs + [Ok(video)])
    case Saved(video) => (s.(actions := s.actions + 1), slot.outputs + [Ok(video)])
    case Left(video) => (s.(actions := s.actions + 1), slot.outputs + [Ok(video)])
    case AwaitingCache => (s.(cache := Some(config.initialCache)), slot.outputs)
    case BuildingCache => (s.(cache := Some(config.initialCache)), slot.outputs)
  }

  function Generating<V, C, R, A>(generate: Generate<V, C, R, A>, s: Session<C, R>, index: nat, action: A, rng: R,
                                  outputs: seq<Result<V, StepError>>): (Session<C, R>, seq<Result<V, StepError>>)
    requires s.cache.Some?
  {
    var g := generate(index, s.cache.value, rng, action);
    (s.(cache := Some(g.cache), rng := g.rng, actions := s.actions + 1), outputs + [Ok(g.video)])
  }

  /** One of the sessions holds the lock, or none, and only who holds it is inside. */
  ghost predicate Exclusive<V, C, R, A>(w: World<V, C, R, A>) {
    && (w.lock.Some? ==> w.lock.value < |w.slots|)
    && forall i :: 0 <= i < |w.slots| ==> (Inside(w.slots[i].at) <==> w.lock == Some(i))
  }

  lemma {:induction false} StaysExclusive<V(!new), C(!new), R(!new), A(!new)>(
    configs: seq<Config<V, C, R, A>>, generate: Generate<V, C, R, A>, w: World<V, C, R, A>, e: Event)
    requires |w.slots| == |configs| && Enabled(true, w, e) && HasCache(w.slots[e.id]) && Exclusive(w)
    ensures Exclusive(Happened(configs, generate, w, e))
  {
    var u := Happened(configs, generate, w, e);
    forall i | 0 <= i < |u.slots| ensures Inside(u.slots[i].at) <==> u.lock == Some(i) {
      assert Inside(w.slots[i].at) <==> w.lock == Some(i);
      assert Inside(w.slots[e.id].at) <==> w.lock == Some(e.id);
    }
  }

  lemma {:induction false} RunsExclusive<V(!new), C(!new), R(!new), A(!new)>(
    configs: seq<Config<V, C, R, A>>, generate: Generate<V, C, R, A>, shared: R, events: seq<Event>)
    requires After(true, configs, generate, shared, events).Some?
    ensures Exclusive(After(true, configs, generate, shared, events).value)
  {
    if events != [] {
      RunsExclusive(configs, generate, shared, events[..|events| - 1]);
      StaysExclusive(configs, generate, After(true, configs, generate, shared, events[..|events| - 1]).value,
                     events[|events| - 1]);
    }
  }

  /** What becomes of a session is not changed by its own accesses, nor by anything the others do. */
  lemma {:induction false} GoKeeps<V(!new), C(!new), R(!new), A(!new)>(
    configs: seq<Config<V, C, R, A>>, generate: Generate<V, C, R, A>, w: World<V, C, R, A>, e: Event, id: nat)
    requires |w.slots| == |configs| && Enabled(true, w, e) && Exclusive(w) && e.id < |configs| && id < |configs|
    requires forall i :: 0 <= i < |configs| ==> HasCache(w.slots[i])
    requires HasCache(Happened(configs, generate, w, e).slots[id])
    requires e.Go? || e.id != id
    ensures var u := Happened(configs, generate, w, e);
            Completed(configs[id], generate, u.slots[id], u.shared)
              == Completed(configs[id], generate, w.slots[id], w.shared)
  {
    assert Inside(w.slots[id].at) <==> w.lock == Some(id);
    assert Inside(w.slots[e.id].at) <==> w.lock == Some(e.id);
  }

  /** One more operation of a session on its own. */
  function OneMore<V, C, R, A>(config: Config<V, C, R, A>, generate: Generate<V, C, R, A>,
                               now: (Session<C, R>, seq<Result<V, StepError>>), op: Op)
    : (Session<C, R>, seq<Result<V, StepError>>)
  {
    match op
    case Step(index, events) =>
      var (t, output) := Stepped(config, generate, now.0, index, events);
      (t, now.1 + [output])
    case Reset => (FreshSession(config), now.1)
    case Close => (Closed(now.0), now.1)
  }

  lemma {:induction false} CallIsOneMore<V(!new), C(!new), R(!new), A(!new)>(
    config: Config<V, C, R, A>, generate: Generate<V, C, R, A>, slot: Slot<V, C, R, A>, op: Op, shared: R)
    requires slot.at.Outside? && HasCache(Called(config, generate, slot, op))
    ensures Completed(config, generate, Called(config, generate, slot, op), shared)
            == OneMore(config, generate, Completed(config, generate, slot, shared), op)
  {
  }

  lemma {:induction false} SoloIsOneMore<V(!new), C(!new), R(!new), A(!new)>(
    config: Config<V, C, R, A>, generate: Generate<V, C, R, A>, ops: seq<Op>, op: Op)
    ensures Solo(config, generate, ops + [op]) == OneMore(config, generate, Solo(config, generate, ops), op)
  {
    assert (ops + [op])[..|ops|] == ops;
  }

  /** The operations called so far, one more of them when this event is one. */
  function MoreCalls(ops: seq<Op>, e: Event, id: nat): seq<Op> {
    if e.Call? && e.id == id then ops + [e.op] else ops
  }

  lemma {:induction false} StaysIsolated<V(!new), C(!new), R(!new), A(!new)>(
    configs: seq<Config<V, C, R, A>>, generate: Generate<V, C, R, A>, w: World<V, C, R, A>, e: Event,
    id: nat, ops: seq<Op>)
    requires |w.slots| == |configs| && Enabled(true, w, e) && Exclusive(w) && id < |configs|
    requires forall i :: 0 <= i < |configs| ==> HasCache(w.slots[i])
    requires HasCache(Happened(configs, generate, w, e).slots[id])
    requires Completed(configs[id], generate, w.slots[id], w.shared) == Solo(configs[id], generate, ops)
    ensures var u := Happened(configs, generate, w, e);
            Completed(configs[id], generate, u.slots[id], u.shared)
              == Solo(configs[id], generate, MoreCalls(ops, e, id))
  {
    if e.Call? && e.id == id {
      CallIsOneMore(configs[id], generate, w.slots[id], e.op, w.shared);
      SoloIsOneMore(configs[id], generate, ops, e.op);
    } else {
      GoKeeps(configs, generate, w, e, id);
    }
  }

  lemma {:induction false} CallsGrow(events: seq<Event>, id: nat)
    requires events != []
    ensures CallsOf(events, id) == MoreCalls(CallsOf(events[..|events| - 1], id), events[|events| - 1], id)
  {
  }

  /**
   * Between any two accesses of any sessions, whatever the generator held before, each session is on its way to exactly
   * what the operations it has been called with lead to when it runs alone; once outside, it is there.
   */
  lemma {:induction false} SessionsAreIsolated<V(!new), C(!new), R(!new), A(!new)>(
    configs: seq<Config<V, C, R, A>>, generate: Generate<V, C, R, A>, shared: R, events: seq<Event>, id: nat)
    requires After(true, configs, generate, shared, events).Some? && id < |configs|
    ensures var w := After(true, configs, generate, shared, events).value;
            Completed(configs[id], generate, w.slots[id], w.shared) == Solo(configs[id], generate, CallsOf(events, id))
  {
    if events != [] {
      var init, e := events[..|events| - 1], events[|events| - 1];
      var w := After(true, configs, generate, shared, init).value;
      SessionsAreIsolated(configs, generate, shared, init, id);
      RunsExclusive(configs, generate, shared, init);
      StaysIsolated(configs, generate, w, e, id, CallsOf(init, id));
      CallsGrow(events, id);
    }
  }

  /** While any session is in a call, some session can go on: the lock is never left taken. */
  lemma {:induction false} SomeoneGoes<V(!new), C(!new), R(!new), A(!new)>(
    configs: seq<Config<V, C, R, A>>, generate: Generate<V, C, R, A>, shared: R, events: seq<Event>, id: nat)
    requires After(true, configs, generate, shared, events).Some? && id < |configs|
    requires !After(true, configs, generate, shared, events).value.slots[id].at.Outside?
    ensures var w := After(true, configs, generate, shared, events).value;
            Enabled(true, w, Go(if w.lock.Some? then w.lock.value else id))
  {
    RunsExclusive(configs, generate, shared, events);
  }

  // Two sessions whose blocks show the generator's state, run without the lock.

  /** A block is the generator's state, which it moves on by one. */
  function Counted(index: nat, cache: (), rng: int, action: ()): Generated<int, (), int> {
    Generated(rng, cache, rng + 1)
  }

  function Seeded(rng: int): Config<int, (), int, ()> { Config(0, (), rng, 1, (snapshot: Snapshot) => ()) }

  type Lane = Slot<int, (), int, ()>

  const PAIR: seq<Config<int, (), int, ()>> := [Seeded(3), Seeded(5)]

  /** The first session has its own state loaded when the second loads another. */
  const OVERLAP: seq<Event> :=
    [Call(0, Step(1, [])), Go(0), Go(0), Call(1, Step(1, [])), Go(1), Go(1), Go(0), Go(0), Go(0), Go(0)]

  function Stopped(rng: int, at: Point<int, ()>): Lane { Slot(FreshSession(Seeded(rng)), at, []) }

  function Both(first: Lane, second: Lane, shared: int, lock: Option<nat>): World<int, (), int, ()> {
    World([first, second], lock, shared)
  }

  /** One more event of the schedule, which moves one of the two sessions. */
  lemma {:induction false} Then(n: nat, w: World<int, (), int, ()>, u: World<int, (), int, ()>)
    requires n < |OVERLAP| && After(false, PAIR, Counted, 0, OVERLAP[..n]) == Some(w)
    requires Enabled(false, w, OVERLAP[n]) && u == Happened(PAIR, Counted, w, OVERLAP[n])
    ensures After(false, PAIR, Counted, 0, OVERLAP[..n + 1]) == Some(u)
  {
    assert OVERLAP[..n + 1][..n] == OVERLAP[..n];
  }

  lemma {:induction false} Updates(a: Lane, b: Lane, c: Lane)
    ensures [a, b][0 := c] == [c, b] && [a, b][1 := c] == [a, c]
  {
  }

  lemma {:induction false} Begins(rng: int)
    ensures Called(Seeded(rng), Counted, NewSlot(Seeded(rng)), Step(1, [])) == Stopped(rng, Waiting(1, ()))
  {
  }

  lemma {:induction false} FirstLoads()
    ensures After(false, PAIR, Counted, 0, OVERLAP[..3])
            == Some(Both(Stopped(3, Loaded(1, ())), NewSlot(Seeded(5)), 3, Some(0)))
  {
    var b := NewSlot(Seeded(5));
    assert Start(PAIR, 0).slots == [NewSlot(Seeded(3)), b];
    Begins(3);
    Updates(NewSlot(Seeded(3)), b, Stopped(3, Waiting(1, ())));
    Then(0, Start(PAIR, 0), Both(Stopped(3, Waiting(1, ())), b, 0, None));
    Updates(Stopped(3, Waiting(1, ())), b, Stopped(3, Entered(1, ())));
    Then(1, Both(Stopped(3, Waiting(1, ())), b, 0, None), Both(Stopped(3, Entered(1, ())), b, 0, Some(0)));
    Updates(Stopped(3, Entered(1, ())), b, Stopped(3, Loaded(1, ())));
    Then(2, Both(Stopped(3, Entered(1, ())), b, 0, Some(0)), Both(Stopped(3, Loaded(1, ())), b, 3, Some(0)));
  }

  lemma {:induction false} SecondLoads()
    ensures After(false, PAIR, Counted, 0, OVERLAP[..6])
            == Some(Both(Stopped(3, Loaded(1, ())), Stopped(5, Loaded(1, ())), 5, Some(1)))
  {
    var a := Stopped(3, Loaded(1, ()));
    FirstLoads();
    Begins(5);
    Updates(a, NewSlot(Seeded(5)), Stopped(5, Waiting(1, ())));
    Then(3, Both(a, NewSlot(Seeded(5)), 3, Some(0)), Both(a, Stopped(5, Waiting(1, ())), 3, Some(0)));
    Updates(a, Stopped(5, Waiting(1, ())), Stopped(5, Entered(1, ())));
    Then(4, Both(a, Stopped(5, Waiting(1, ())), 3, Some(0)), Both(a, Stopped(5, Entered(1, ())), 3, Some(1)));
    Updates(a, Stopped(5, Entered(1, ())), Stopped(5, Loaded(1, ())));
    Then(5, Both(a, Stopped(5, Entered(1, ())), 3, Some(1)), Both(a, Stopped(5, Loaded(1, ())), 5, Some(1)));
  }

  /** The first session's slot after its block, and after saving the generator's state. */
  function Spoilt(rng: int, actions: nat, at: Point<int, ()>, outputs: seq<Result<int, StepError>>): Lane {
    Slot(FreshSession(Seeded(3)).(rng := rng, actions := actions), at, outputs)
  }

  lemma {:induction false} FirstSaves()
    ensures After(false, PAIR, Counted, 0, OVERLAP[..8])
            == Some(Both(Spoilt(6, 0, Saved(5), []), Stopped(5, Loaded(1, ())), 6, Some(1)))
  {
    var b := Stopped(5, Loaded(1, ()));
    SecondLoads();
    Updates(Stopped(3, Loaded(1, ())), b, Spoilt(3, 0, Made(5), []));
    Then(6, Both(Stopped(3, Loaded(1, ())), b, 5, Some(1)), Both(Spoilt(3, 0, Made(5), []), b, 6, Some(1)));
    Updates(Spoilt(3, 0, Made(5), []), b, Spoilt(6, 0, Saved(5), []));
    Then(7, Both(Spoilt(3, 0, Made(5), []), b, 6, Some(1)), Both(Spoilt(6, 0, Saved(5), []), b, 6, Some(1)));
  }

  lemma {:induction false} FirstFinishes()
    ensures After(false, PAIR, Counted, 0, OVERLAP[..10])
            == Some(Both(Spoilt(6, 1, Outside, [Ok(5)]), Stopped(5, Loaded(1, ())), 6, None))
  {
    var b := Stopped(5, Loaded(1, ()));
    var none: seq<Result<int, StepError>> := [];
    FirstSaves();
    Updates(Spoilt(6, 0, Saved(5), []), b, Spoilt(6, 0, Left(5), []));
    Then(8, Both(Spoilt(6, 0, Saved(5), []), b, 6, Some(1)), Both(Spoilt(6, 0, Left(5), []), b, 6, None));
    assert none + [Ok(5)] == [Ok(5)];
    Updates(Spoilt(6, 0, Left(5), []), b, Spoilt(6, 1, Outside, [Ok(5)]));
    Then(9, Both(Spoilt(6, 0, Left(5), []), b, 6, None), Both(Spoilt(6, 1, Outside, [Ok(5)]), b, 6, None));
  }

  /** Without the lock a session's block can come from another's state: here it shows 5, and alone it would show 3. */
  lemma {:induction false} LockIsNeeded()
    ensures var w := After(false, PAIR, Counted, 0, OVERLAP);
            w.Some? && w.value.slots[0].at.Outside? && w.value.slots[0].outputs == [Ok(5)]
    ensures CallsOf(OVERLAP, 0) == [Step(1, [])] && Solo(PAIR[0], Counted, [Step(1, [])]).1 == [Ok(3)]
  {
    FirstFinishes();
    assert OVERLAP[..10] == OVERLAP;
    CallsOfOverlap(10);
    SoloIsOneMore(PAIR[0], Counted, [], Step(1, []));
  }

  lemma {:induction false} CallsOfOverlap(n: nat)
    requires 1 <= n <= 10
    ensures CallsOf(OVERLAP[..n], 0) == [Step(1, [])]
  {
    CallsGrow(OVERLAP[..n], 0);
    assert OVERLAP[..n][..n - 1] == OVERLAP[..n - 1];
    if n > 1 {
      CallsOfOverlap(n - 1);
    }
  }

  lemma {:induction false} SoloSplit<V(!new), C(!new), R(!new), A(!new)>(
    config: Config<V, C, R, A>, generate: Generate<V, C, R, A>, start: Session<C, R>, a: seq<Op>, b: seq<Op>)
    ensures var (s, first) := SoloFrom(config, generate, start, a);
            var (t, second) := SoloFrom(config, generate, s, b);
            SoloFrom(config, generate, start, a + b) == (t, first + second)
    decreases |b|
  {
    if b == [] {
      assert a + b == a;
      var (s, first) := SoloFrom(config, generate, start, a);
      assert first + [] == first;
    } else {
      assert (a + b)[..|a + b| - 1] == a + b[..|b| - 1];
      SoloSplit(config, generate, start, a, b[..|b| - 1]);
      var (s, first) := SoloFrom(config, generate, start, a);
      var (u, prior) := SoloFrom(config, generate, s, b[..|b| - 1]);
      var op := b[|b| - 1];
      if op.Step? {
        var output := Stepped(config, generate, u, op.index, op.events).1;
        assert first + (prior + [output]) == first + prior + [output];
      }
    }
  }

  /** After a reset, whatever came before, the same operations give the same outputs as the first time. */
  lemma {:induction false} ResetReplays<V(!new), C(!new), R(!new), A(!new)>(
    config: Config<V, C, R, A>, generate: Generate<V, C, R, A>, before: seq<Op>, again: seq<Op>)
    ensures var (s, outputs) := Solo(config, generate, before + [Reset] + again);
            && s == Solo(config, generate, again).0
            && outputs == Solo(config, generate, before).1 + Solo(config, generate, again).1
  {
    assert (before + [Reset])[..|before|] == before;
    SoloSplit(config, generate, FreshSession(config), before + [Reset], again);
  }
}
