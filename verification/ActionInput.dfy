/** Keyboard and mouse events folded into one action snapshot per model step. */
module ActionInput {
  import opened Prelude

  datatype InputEvent =
    | ResetInput
    | Focus(focused: bool)
    | KeyEdge(pressed: bool, key: string)
    | MouseMove(x: real, y: real)
    | MouseButton(pressed: bool, button: int, x: real, y: real)
    | MouseWheel(x: real, y: real, wheelX: real, wheelY: real)

  datatype Held = Held(keys: set<string>, buttons: set<int>, pointer: Option<(real, real)>)

  const NOTHING_HELD := Held({}, {}, None)

  /** Displacements accumulated within one batch. */
  datatype Motion = Motion(dx: real, dy: real, wheelX: real, wheelY: real)

  const STILL := Motion(0.0, 0.0, 0.0, 0.0)

  datatype Snapshot = Snapshot(keys: set<string>, buttons: set<int>, motion: Motion)

  function UpperChar(c: char): char {
    if 'a' <= c <= 'z' then (c as int - 32) as char else c
  }

  function Upper(s: string): string {
    seq(|s|, i requires 0 <= i < |s| => UpperChar(s[i]))
  }

  function WithoutSeparators(s: string): string {
    if s == [] then []
    else (if s[0] == '_' || s[0] == '-' || s[0] == ' ' then [] else [s[0]]) + WithoutSeparators(s[1..])
  }

  function NormalizeKey(key: string): string {
    if |key| == 1 then Upper(key) else Upper(WithoutSeparators(key))
  }

  /** A reset or a loss of focus forgets everything gathered so far. */
  predicate Forgets(e: InputEvent) {
    e.ResetInput? || (e.Focus? && !e.focused)
  }

  function Applied(h: Held, m: Motion, e: InputEvent): (Held, Motion) {
    match e
    case ResetInput => (NOTHING_HELD, STILL)
    case Focus(focused) => if focused then (h, m) else (NOTHING_HELD, STILL)
    case KeyEdge(pressed, key) =>
      (h.(keys := if pressed then h.keys + {NormalizeKey(key)} else h.keys - {NormalizeKey(key)}), m)
    case MouseMove(x, y) =>
      (h.(pointer := Some((x, y))),
       if h.pointer.Some? then m.(dx := m.dx + (x - h.pointer.value.0), dy := m.dy + (y - h.pointer.value.1)) else m)
    case MouseButton(pressed, button, x, y) =>
      (h.(pointer := Some((x, y)), buttons := if pressed then h.buttons + {button} else h.buttons - {button}), m)
    case MouseWheel(x, y, wheelX, wheelY) =>
      (h.(pointer := Some((x, y))), m.(wheelX := m.wheelX + wheelX, wheelY := m.wheelY + wheelY))
  }

  function AppliedAll(h: Held, m: Motion, events: seq<InputEvent>): (Held, Motion) {
    if events == [] then (h, m)
    else
      var (h', m') := AppliedAll(h, m, events[..|events| - 1]);
      Applied(h', m', events[|events| - 1])
  }

  /** What a batch leaves held, and the snapshot it yields. */
  function Consumed(h: Held, events: seq<InputEvent>): (Held, Snapshot) {
    var (h', m) := AppliedAll(h, STILL, events);
    (h', Snapshot(h'.keys, h'.buttons, m))
  }

  lemma {:induction false} AppliedSplit(h: Held, m: Motion, a: seq<InputEvent>, b: seq<InputEvent>)
    ensures AppliedAll(h, m, a + b) == AppliedAll(AppliedAll(h, m, a).0, AppliedAll(h, m, a).1, b)
    decreases |b|
  {
    if b == [] {
      assert a + b == a;
    } else {
      assert (a + b)[..|a + b| - 1] == a + b[..|b| - 1];
      AppliedSplit(h, m, a, b[..|b| - 1]);
    }
  }

  /** Nothing before a reset or a loss of focus, in this batch or an earlier one, affects the snapshot. */
  lemma {:induction false} ForgettingIsTotal(h: Held, before: seq<InputEvent>, e: InputEvent, after: seq<InputEvent>)
    requires Forgets(e)
    ensures Consumed(h, before + [e] + after) == Consumed(NOTHING_HELD, after)
  {
    assert (before + [e])[..|before|] == before;
    AppliedSplit(h, STILL, before + [e], after);
  }

  /** What stays held does not depend on how the events were cut into batches. */
  lemma {:induction false} BatchesJoin(h: Held, a: seq<InputEvent>, b: seq<InputEvent>)
    ensures Consumed(Consumed(h, a).0, b).0 == Consumed(h, a + b).0
    ensures Consumed(Consumed(h, a).0, b).1.keys == Consumed(h, a + b).1.keys
    ensures Consumed(Consumed(h, a).0, b).1.buttons == Consumed(h, a + b).1.buttons
  {
    var (g, m) := AppliedAll(h, STILL, a);
    AppliedSplit(h, STILL, a, b);
    HeldApart(g, m, STILL, b);
  }

  lemma {:induction false} HeldApart(h: Held, m: Motion, m': Motion, events: seq<InputEvent>)
    ensures AppliedAll(h, m, events).0 == AppliedAll(h, m', events).0
  {
    if events != [] {
      HeldApart(h, m, m', events[..|events| - 1]);
    }
  }

  // ---------- what a snapshot holds ----------

  predicate EdgesKey(e: InputEvent, key: string) { e.KeyEdge? && NormalizeKey(e.key) == key }

  predicate EdgesButton(e: InputEvent, button: int) { e.MouseButton? && e.button == button }

  /** Neither is everything forgotten nor is the key touched from the `i`-th event on. */
  ghost predicate KeyUntouched(events: seq<InputEvent>, i: nat, key: string) {
    forall j :: i <= j < |events| ==> !Forgets(events[j]) && !EdgesKey(events[j], key)
  }

  ghost predicate ButtonUntouched(events: seq<InputEvent>, i: nat, button: int) {
    forall j :: i <= j < |events| ==> !Forgets(events[j]) && !EdgesButton(events[j], button)
  }

  ghost predicate PressedLast(events: seq<InputEvent>, i: nat, key: string) {
    i < |events| && EdgesKey(events[i], key) && events[i].pressed && KeyUntouched(events, i + 1, key)
  }

  ghost predicate ClickedLast(events: seq<InputEvent>, i: nat, button: int) {
    i < |events| && EdgesButton(events[i], button) && events[i].pressed && ButtonUntouched(events, i + 1, button)
  }

  /**
   * A key is in the snapshot exactly when the last event for it is a press that nothing has made forgotten, or it was
   * held before and the batch neither touches nor forgets it. The snapshot shows what stays held.
   */
  lemma {:induction false} KeysHeld(h: Held, events: seq<InputEvent>, key: string)
    ensures key in Consumed(h, events).1.keys
            <==> (exists i :: PressedLast(events, i, key)) || (key in h.keys && KeyUntouched(events, 0, key))
    ensures Consumed(h, events).0.keys == Consumed(h, events).1.keys
  {
    if events != [] {
      var n := |events| - 1;
      var init, last := events[..n], events[n];
      KeysHeld(h, init, key);
      if Forgets(last) || EdgesKey(last, key) {
        assert !KeyUntouched(events, 0, key);
        assert forall i :: PressedLast(events, i, key) ==> i == n;
        assert EdgesKey(last, key) && last.pressed ==> PressedLast(events, n, key);
      } else {
        assert KeyUntouched(events, 0, key) <==> KeyUntouched(init, 0, key);
        forall i: nat ensures PressedLast(events, i, key) <==> PressedLast(init, i, key) {
          assert i < n ==> (KeyUntouched(events, i + 1, key) <==> KeyUntouched(init, i + 1, key));
        }
      }
    }
  }

  /** The same for mouse buttons. */
  lemma {:induction false} ButtonsHeld(h: Held, events: seq<InputEvent>, button: int)
    ensures button in Consumed(h, events).1.buttons
            <==> (exists i :: ClickedLast(events, i, button))
                 || (button in h.buttons && ButtonUntouched(events, 0, button))
    ensures Consumed(h, events).0.buttons == Consumed(h, events).1.buttons
  {
    if events != [] {
      var n := |events| - 1;
      var init, last := events[..n], events[n];
      ButtonsHeld(h, init, button);
      if Forgets(last) || EdgesButton(last, button) {
        assert !ButtonUntouched(events, 0, button);
        assert forall i :: ClickedLast(events, i, button) ==> i == n;
        assert EdgesButton(last, button) && last.pressed ==> ClickedLast(events, n, button);
      } else {
        assert ButtonUntouched(events, 0, button) <==> ButtonUntouched(init, 0, button);
        forall i: nat ensures ClickedLast(events, i, button) <==> ClickedLast(init, i, button) {
          assert i < n ==> (ButtonUntouched(events, i + 1, button) <==> ButtonUntouched(init, i + 1, button));
        }
      }
    }
  }

  // ---------- how far the mouse has moved ----------

  /** Where an event says the pointer is. */
  function Places(e: InputEvent): Option<(real, real)> {
    match e
    case MouseMove(x, y) => Some((x, y))
    case MouseButton(_, _, x, y) => Some((x, y))
    case MouseWheel(x, y, _, _) => Some((x, y))
    case _ => None
  }

  /** Where the pointer was last seen, if it has been since everything was forgotten. */
  function LastSeen(before: Option<(real, real)>, events: seq<InputEvent>): Option<(real, real)> {
    if events == [] then before
    else
      var e := events[|events| - 1];
      if Forgets(e) then None
      else if Places(e).Some? then Places(e)
      else LastSeen(before, events[..|events| - 1])
  }

  /** What an event adds to the motion: a move its way from where the pointer was, a wheel its turn. */
  function Adds(from: Option<(real, real)>, e: InputEvent): Motion {
    match e
    case MouseMove(x, y) => if from.None? then STILL else Motion(x - from.value.0, y - from.value.1, 0.0, 0.0)
    case MouseWheel(_, _, wheelX, wheelY) => Motion(0.0, 0.0, wheelX, wheelY)
    case _ => STILL
  }

  function Plus(a: Motion, b: Motion): Motion {
    Motion(a.dx + b.dx, a.dy + b.dy, a.wheelX + b.wheelX, a.wheelY + b.wheelY)
  }

  /** What the events from the `k`-th on add. */
  function AddedFrom(before: Option<(real, real)>, events: seq<InputEvent>, k: nat): Motion
    requires k <= |events|
    decreases |events|
  {
    if k == |events| then STILL
    else
      var init := events[..|events| - 1];
      Plus(AddedFrom(before, init, k), Adds(LastSeen(before, init), events[|events| - 1]))
  }

  /** Nothing has been forgotten from the `k`-th event on, and everything just before it unless it is the first. */
  ghost predicate Since(events: seq<InputEvent>, k: nat) {
    && k <= |events|
    && (k > 0 ==> Forgets(events[k - 1]))
    && forall j :: k <= j < |events| ==> !Forgets(events[j])
  }

  lemma {:induction false} AppliedAdds(h: Held, m: Motion, e: InputEvent)
    requires !Forgets(e)
    ensures Applied(h, m, e).1 == Plus(m, Adds(h.pointer, e))
    ensures Applied(h, m, e).0.pointer == if Places(e).Some? then Places(e) else h.pointer
  {
  }

  /** The motion is what the moves and the wheel have added since everything was last forgotten. */
  lemma {:induction false} MotionAddsUp(h: Held, events: seq<InputEvent>, k: nat)
    requires Since(events, k)
    ensures Consumed(h, events).1.motion == AddedFrom(h.pointer, events, k)
    ensures Consumed(h, events).0.pointer == LastSeen(h.pointer, events)
  {
    if events != [] {
      var init, last := events[..|events| - 1], events[|events| - 1];
      var known := SinceSome(init);
      MotionAddsUp(h, init, if k < |events| then k else known);
      var (h', m) := AppliedAll(h, STILL, init);
      if !Forgets(last) {
        AppliedAdds(h', m, last);
      }
    }
  }

  lemma {:induction false} SinceSome(events: seq<InputEvent>) returns (k: nat)
    ensures Since(events, k)
  {
    if events == [] {
      k := 0;
    } else if Forgets(events[|events| - 1]) {
      k := |events|;
    } else {
      k := SinceSome(events[..|events| - 1]);
    }
  }

  lemma {:induction false} AddsTelescope(from: Option<(real, real)>, events: seq<InputEvent>)
    requires from.Some? && forall e :: e in events ==> !Forgets(e) && !e.MouseButton? && !e.MouseWheel?
    ensures var to := LastSeen(from, events);
            && to.Some?
            && AddedFrom(from, events, 0)
               == Motion(to.value.0 - from.value.0, to.value.1 - from.value.1, 0.0, 0.0)
  {
    if events != [] {
      assert events[|events| - 1] in events;
      AddsTelescope(from, events[..|events| - 1]);
    }
  }

  /** So a batch of moves from a known position adds up to the way from there to where the last one ends. */
  lemma {:induction false} MovesTelescope(h: Held, events: seq<InputEvent>)
    requires h.pointer.Some? && forall e :: e in events ==> !Forgets(e) && !e.MouseButton? && !e.MouseWheel?
    ensures var to := LastSeen(h.pointer, events);
            to.Some? && Consumed(h, events).1.motion
                        == Motion(to.value.0 - h.pointer.value.0, to.value.1 - h.pointer.value.1, 0.0, 0.0)
  {
    MotionAddsUp(h, events, 0);
    AddsTelescope(h.pointer, events);
  }

  // ---------- how keys are named ----------

  predicate Separates(c: char) { c == '_' || c == '-' || c == ' ' }

  /** A key's name is in capitals, and only a single character can be a separator. */
  lemma {:induction false} KeyNames(key: string)
    ensures forall c :: c in NormalizeKey(key) ==> !('a' <= c <= 'z') && (|key| != 1 ==> !Separates(c))
    ensures NormalizeKey(NormalizeKey(key)) == NormalizeKey(key)
  {
    KeepsNoSeparator(key);
    if |key| != 1 {
      var name := NormalizeKey(key);
      assert |name| != 1 ==> WithoutSeparators(name) == name by {
        NothingSeparates(name);
      }
      assert Upper(name) == name;
    }
  }

  lemma {:induction false} KeepsNoSeparator(key: string)
    ensures forall c :: c in WithoutSeparators(key) ==> c in key && !Separates(c)
  {
    if key != [] {
      KeepsNoSeparator(key[1..]);
    }
  }

  lemma {:induction false} NothingSeparates(key: string)
    requires forall c :: c in key ==> !Separates(c)
    ensures WithoutSeparators(key) == key
  {
    if key != [] {
      assert !Separates(key[0]) && key == [key[0]] + key[1..];
      NothingSeparates(key[1..]);
    }
  }

  lemma {:induction false} SplitKey(a: string, b: string)
    ensures WithoutSeparators(a + b) == WithoutSeparators(a) + WithoutSeparators(b)
  {
    if a == [] {
      assert a + b == b;
    } else {
      assert (a + b)[1..] == a[1..] + b;
      SplitKey(a[1..], b);
    }
  }

  /** Two spellings of a long key name that differ in a separator or in capitals are the same key. */
  lemma {:induction false} SpellingsAgree(a: string, c: char, b: string)
    requires |a + b| > 1
    ensures Separates(c) ==> NormalizeKey(a + [c] + b) == NormalizeKey(a + b)
    ensures NormalizeKey(Upper(a + b)) == NormalizeKey(a + b)
  {
    if Separates(c) {
      SeparatorDrops(a, c, b);
    }
    UpperSeparators(a + b);
  }

  lemma {:induction false} SeparatorDrops(a: string, c: char, b: string)
    requires Separates(c)
    ensures WithoutSeparators(a + [c] + b) == WithoutSeparators(a + b)
  {
    SplitKey(a + [c], b);
    SplitKey(a, [c]);
    SplitKey(a, b);
    assert WithoutSeparators([c]) == WithoutSeparators([c][1..]) && [c][1..] == [];
    assert WithoutSeparators(a) + [] + WithoutSeparators(b) == WithoutSeparators(a) + WithoutSeparators(b);
  }

  lemma {:induction false} UpperSeparators(key: string)
    ensures Upper(WithoutSeparators(Upper(key))) == Upper(WithoutSeparators(key))
  {
    if key != [] {
      var c, rest, raised := key[0], WithoutSeparators(key[1..]), WithoutSeparators(Upper(key[1..]));
      UpperSeparators(key[1..]);
      assert Upper(key)[0] == UpperChar(c) && Upper(key)[1..] == Upper(key[1..]);
      if Separates(c) {
        assert WithoutSeparators(key) == rest && WithoutSeparators(Upper(key)) == raised;
      } else {
        assert !Separates(UpperChar(c)) && UpperChar(UpperChar(c)) == UpperChar(c);
        assert WithoutSeparators(key) == [c] + rest && WithoutSeparators(Upper(key)) == [UpperChar(c)] + raised;
        UpperCons(c, rest);
        UpperCons(UpperChar(c), raised);
      }
    }
  }

  lemma {:induction false} UpperCons(c: char, rest: string)
    ensures Upper([c] + rest) == [UpperChar(c)] + Upper(rest)
  {
  }

  class ActionEventAccumulator {
    var heldKeys: set<string>
    var heldButtons: set<int>
    var pointer: Option<(real, real)>

    ghost function View(): Held
      reads this
    {
      Held(heldKeys, heldButtons, pointer)
    }

    constructor ()
      ensures View() == NOTHING_HELD
    {
      heldKeys, heldButtons, pointer := {}, {}, None;
    }

    method Reset()
      modifies this
      ensures View() == NOTHING_HELD
    {
      heldKeys, heldButtons, pointer := {}, {}, None;
    }

    method Consume(events: seq<InputEvent>) returns (snapshot: Snapshot)
      modifies this
      ensures (View(), snapshot) == Consumed(old(View()), events)
    {
      var motion := STILL;
      for i := 0 to |events|
        invariant (View(), motion) == AppliedAll(old(View()), STILL, events[..i])
      {
        assert events[..i + 1][..i] == events[..i];
        match events[i]
        case ResetInput =>
          Reset();
          motion := STILL;
        case Focus(focused) =>
          if !focused {
            Reset();
            motion := STILL;
          }
        case KeyEdge(pressed, key) =>
          if pressed {
            heldKeys := heldKeys + {NormalizeKey(key)};
          } else {
            heldKeys := heldKeys - {NormalizeKey(key)};
          }
        case MouseMove(x, y) =>
          if pointer.Some? {
            motion := motion.(dx := motion.dx + (x - pointer.value.0), dy := motion.dy + (y - pointer.value.1));
          }
          pointer := Some((x, y));
        case MouseButton(pressed, button, x, y) =>
          pointer := Some((x, y));
          if pressed {
            heldButtons := heldButtons + {button};
          } else {
            heldButtons := heldButtons - {button};
          }
        case MouseWheel(x, y, wheelX, wheelY) =>
          pointer := Some((x, y));
          motion := motion.(wheelX := motion.wheelX + wheelX, wheelY := motion.wheelY + wheelY);
      }
      assert events[..|events|] == events;
      snapshot := Snapshot(heldKeys, heldButtons, motion);
    }
  }
}
