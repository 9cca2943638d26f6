/** Input bindings, their document form, and bindings captured from live input. */
module Bindings {
  import opened Prelude
  import opened Text

  datatype Device = Keyboard | Gamepad | Wheel

  /** A steering action needs a two-sided axis; every other action is a scalar. */
  datatype ActionKind = Scalar | Steering

  datatype Code = Name(name: string) | Index(index: int)

  datatype InputKind = Key | Button | Axis

  datatype Direction = Negative | Positive | Bidirectional

  datatype Binding = Binding(kind: InputKind, code: Code, direction: Direction, invert: bool)

  /** A parsed document value. */
  datatype Yaml =
    | YNull
    | YBool(b: bool)
    | YInt(i: int)
    | YString(s: string)
    | YSeq(items: seq<Yaml>)
    | YMap(entries: map<string, Yaml>)

  function KeyBinding(name: string): Binding { Binding(Key, Name(name), Positive, false) }

  function ButtonBinding(index: int): Binding { Binding(Button, Index(index), Positive, false) }

  function AxisBinding(code: Code, direction: Direction, invert: bool): Binding {
    Binding(Axis, code, direction, invert)
  }

  const RESERVED_KEYS: set<string> := {"backspace", "delete"}

  const WHEEL_AXES: set<string> := {"steering", "throttle", "brake", "clutch"}

  // ---------- canonical key names (ASCII) ----------

  function LowerChar(c: char): char {
    if 'A' <= c <= 'Z' then (c as int + 32) as char else c
  }

  function Lower(s: string): (r: string)
    ensures |r| == |s| && forall i :: 0 <= i < |s| ==> r[i] == LowerChar(s[i])
  {
    seq(|s|, i requires 0 <= i < |s| => LowerChar(s[i]))
  }

  function Alias(s: string): string {
    if s == "arrowup" then "up"
    else if s == "arrowdown" then "down"
    else if s == "arrowleft" then "left"
    else if s == "arrowright" then "right"
    else if s == "esc" then "escape"
    else if s == "del" then "delete"
    else s
  }

  function CanonicalKey(value: string): string {
    var lowered := Lower(value);
    if lowered == " " || Strip(lowered) == "spacebar" then "space" else Alias(Strip(lowered))
  }

  /** Without capitals or outer white space. */
  ghost predicate Plain(s: string) {
    && (forall i :: 0 <= i < |s| ==> !('A' <= s[i] <= 'Z'))
    && (s != [] ==> !IsSpace(s[0]) && !IsSpace(s[|s| - 1]))
  }

  lemma {:induction false} PlainFixed(s: string)
    requires Plain(s)
    ensures Lower(s) == s && Strip(s) == s
  {
  }

  lemma {:induction false} StripLoweredPlain(s: string)
    ensures Plain(Strip(Lower(s)))
  {
    var l := Lower(s);
    var a := StripLeft(l);
    var r := Strip(l);
    forall i | 0 <= i < |r| ensures !('A' <= r[i] <= 'Z') {
      assert r[i] == a[i] && a[i] in l;
      var j :| 0 <= j < |l| && l[j] == a[i];
      assert l[j] == LowerChar(s[j]);
    }
  }

  lemma {:induction false} AliasKeepsPlain(s: string)
    requires Plain(s)
    ensures Plain(Alias(s))
  {
  }

  lemma {:induction false} AliasFixed(s: string)
    ensures Alias(Alias(s)) == Alias(s) && (Alias(s) == "spacebar" <==> s == "spacebar")
  {
  }

  lemma {:induction false} CanonicalOfPlain(s: string)
    requires Plain(s) && s != "spacebar"
    ensures CanonicalKey(s) == Alias(s)
  {
    PlainFixed(s);
    assert s == " " ==> IsSpace(s[0]);
  }

  /** Canonical names are their own canonical names. */
  lemma {:induction false} CanonicalIdempotent(value: string)
    ensures CanonicalKey(CanonicalKey(value)) == CanonicalKey(value)
  {
    var s := Strip(Lower(value));
    StripLoweredPlain(value);
    AliasKeepsPlain(s);
    AliasFixed(s);
    if Lower(value) == " " || s == "spacebar" {
      CanonicalOfPlain("space");
    } else {
      CanonicalOfPlain(Alias(s));
    }
  }

  // ---------- document form ----------

  function ToYaml(b: Binding, device: Device): Yaml {
    var code := match b.code case Name(n) => YString(n) case Index(i) => YInt(i);
    if device == Keyboard then (match b.code case Name(n) => YString(n) case Index(_) => YNull)
    else if b.kind == Button then YMap(map["button" := code])
    else if b.direction == Bidirectional then YMap(map["axis" := code, "invert" := YBool(b.invert)])
    else YMap(map["axis" := code, "direction" := YString(if b.direction == Negative then "negative" else "positive")])
  }

  /** Parse one binding for an action of the given kind; `None` is a controls error. */
  function FromYaml(raw: Yaml, device: Device, kind: ActionKind): Option<Binding> {
    if device == Keyboard then
      if !raw.YString? then None
      else
        var key := CanonicalKey(raw.s);
        if key == "" || key in RESERVED_KEYS then None else Some(KeyBinding(key))
    else if !raw.YMap? then None
    else
      var entries := raw.entries;
      if "button" in entries then
        if kind == Steering || entries.Keys != {"button"} || !entries["button"].YInt? || entries["button"].i < 0 then
          None
        else Some(ButtonBinding(entries["button"].i))
      else
        var allowed := if kind == Steering then {"axis", "invert"} else {"axis", "direction"};
        if "axis" !in entries || !(entries.Keys <= allowed) then None
        else
          var axis := entries["axis"];
          if !AxisNamed(axis, device) then None
          else
            var code := if axis.YInt? then Index(axis.i) else Name(axis.s);
            if kind == Steering then
              var inverted := if "invert" in entries then entries["invert"] else YBool(false);
              if !inverted.YBool? then None else Some(AxisBinding(code, Bidirectional, inverted.b))
            else
              var direction := if "direction" in entries then entries["direction"] else YString("positive");
              if direction == YString("negative") then Some(AxisBinding(code, Negative, false))
              else if direction == YString("positive") then Some(AxisBinding(code, Positive, false))
              else None
  }

  /** Gamepad axes are numbered, wheel axes are named. */
  predicate AxisNamed(axis: Yaml, device: Device) {
    if device == Gamepad then axis.YInt? && axis.i >= 0 else axis.YString? && axis.s in WHEEL_AXES
  }

  /** A binding its own document form parses back to. */
  predicate Fits(b: Binding, device: Device, kind: ActionKind) {
    FromYaml(ToYaml(b, device), device, kind) == Some(b)
  }

  predicate IsAxisOf(b: Binding, device: Device) {
    b.kind == Axis &&
    match b.code
    case Index(i) => device == Gamepad && i >= 0
    case Name(n) => device == Wheel && n in WHEEL_AXES
  }

  /** Exactly the bindings that fit an action, read off the device and kind. */
  lemma {:induction false} FitsMeaning(b: Binding, device: Device, kind: ActionKind)
    ensures Fits(b, device, kind) <==>
            match device
            case Keyboard =>
              && b.code.Name? && b == Binding(Key, b.code, Positive, false)
              && CanonicalKey(b.code.name) == b.code.name && b.code.name != "" && b.code.name !in RESERVED_KEYS
            case _ =>
              if kind == Steering then IsAxisOf(b, device) && b.direction == Bidirectional
              else || (IsAxisOf(b, device) && b.direction != Bidirectional && !b.invert)
                   || (b.code.Index? && b.code.index >= 0 && b == Binding(Button, b.code, Positive, false))
  {
    if device != Keyboard {
      var y := ToYaml(b, device);
      if b.kind == Button {
        assert y.entries.Keys == {"button"};
      } else {
        assert "button" !in y.entries;
        assert y.entries["axis"] == match b.code case Name(n) => YString(n) case Index(i) => YInt(i);
        if b.direction == Bidirectional {
          assert y.entries.Keys == {"axis", "invert"} && "invert" in y.entries;
          assert "invert" !in {"axis", "direction"};
          assert y.entries["invert"] == YBool(b.invert);
        } else {
          assert y.entries.Keys == {"axis", "direction"} && "direction" in y.entries;
          assert "direction" !in {"axis", "invert"};
        }
      }
    }
  }

  /** Whatever parses also fits: parsing yields canonical bindings only. */
  lemma {:induction false} ParsedFits(raw: Yaml, device: Device, kind: ActionKind)
    ensures FromYaml(raw, device, kind).Some? ==> Fits(FromYaml(raw, device, kind).value, device, kind)
  {
    if FromYaml(raw, device, kind).Some? {
      FitsMeaning(FromYaml(raw, device, kind).value, device, kind);
      if device == Keyboard {
        CanonicalIdempotent(raw.s);
      }
    }
  }

  /** The document forms of a binding: a key in any spelling, an axis with its defaults written or left out. */
  ghost predicate Spells(raw: Yaml, b: Binding) {
    match b.kind
    case Key => raw.YString? && b.code == Name(CanonicalKey(raw.s))
    case Button => b.code.Index? && raw == YMap(map["button" := YInt(b.code.index)])
    case Axis =>
      var axis := match b.code case Name(n) => YString(n) case Index(i) => YInt(i);
      var plain := map["axis" := axis];
      if b.direction == Bidirectional then
        raw == YMap(plain["invert" := YBool(b.invert)]) || (!b.invert && raw == YMap(plain))
      else
        || raw == YMap(plain["direction" := YString(if b.direction == Positive then "positive" else "negative")])
        || (b.direction == Positive && raw == YMap(plain))
  }

  /** A document entry parses to a binding exactly when the binding fits the action and the entry is a form of it. */
  lemma {:induction false} ParsedIffSpelt(raw: Yaml, b: Binding, device: Device, kind: ActionKind)
    ensures FromYaml(raw, device, kind) == Some(b) <==> Fits(b, device, kind) && Spells(raw, b)
  {
    FitsMeaning(b, device, kind);
    ParsedFits(raw, device, kind);
  }

  /** Off the keyboard, no binding fits both a scalar and a steering action. */
  lemma {:induction false} KindsDisjoint(b: Binding, device: Device, kind: ActionKind, other: ActionKind)
    requires Fits(b, device, kind) && Fits(b, device, other)
    ensures kind == other || device == Keyboard
  {
    FitsMeaning(b, device, kind);
    FitsMeaning(b, device, other);
  }

  // ---------- capture ----------

  /** One live input, with the state of the same controller before it. */
  datatype Event =
    | KeyEvent(pressed: bool, key: string)
    | PadEvent(isState: bool, axes: seq<real>, buttons: seq<real>, oldAxes: seq<real>, oldButtons: seq<real>)
    | WheelEvent(isState: bool, axes: seq<real>, wheelButtons: seq<bool>, oldAxes: seq<real>,
                 oldWheelButtons: seq<bool>)

  const THRESHOLD: real := 0.5

  predicate Moved(values: seq<real>, baseline: seq<real>, i: nat)
    requires i < |values|
  {
    Abs(values[i]) >= THRESHOLD && (i < |baseline| ==> Abs(baseline[i]) < THRESHOLD)
  }

  /** The newly moved axis of greatest deflection, the later one on a tie. */
  function MovedNumeric(values: seq<real>, baseline: seq<real>, n: nat): (r: Option<nat>)
    requires n <= |values|
    ensures r.Some? ==> r.value < n && Moved(values, baseline, r.value)
    ensures forall j :: 0 <= j < n && Moved(values, baseline, j) ==> r.Some? && Abs(values[j]) <= Abs(values[r.value])
  {
    if n == 0 then None
    else
      var best := MovedNumeric(values, baseline, n - 1);
      if Moved(values, baseline, n - 1) && (best.None? || Abs(values[n - 1]) >= Abs(values[best.value]))
      then Some(n - 1) else best
  }

  function PressedNumeric(values: seq<real>, baseline: seq<real>, i: nat): (r: Option<nat>)
    requires i <= |values|
    decreases |values| - i
  {
    if i == |values| then None
    else if values[i] >= THRESHOLD && (i < |baseline| ==> baseline[i] < THRESHOLD) then Some(i)
    else PressedNumeric(values, baseline, i + 1)
  }

  function PressedButton(values: seq<bool>, baseline: seq<bool>, i: nat): (r: Option<nat>)
    requires i <= |values|
    decreases |values| - i
  {
    if i == |values| then None
    else if values[i] && (i < |baseline| ==> !baseline[i]) then Some(i)
    else PressedButton(values, baseline, i + 1)
  }

  function SignedDirection(value: real): Direction { if value > 0.0 then Positive else Negative }

  function WheelAxis(i: nat): string
    requires i < 4
  {
    ["steering", "throttle", "brake", "clutch"][i]
  }

  /** The binding a live input stands for, once it crosses the threshold; wheel events carry four named axes. */
  function Capture(device: Device, kind: ActionKind, event: Event): Option<Binding>
    requires event.WheelEvent? ==> |event.axes| == 4
  {
    match event
    case KeyEvent(pressed, key) =>
      if device != Keyboard || !pressed then None
      else
        var name := CanonicalKey(key);
        if name == "" || name in RESERVED_KEYS then None else Some(KeyBinding(name))
    case PadEvent(isState, axes, buttons, oldAxes, oldButtons) =>
      if device != Gamepad || !isState then None
      else
        var axis := MovedNumeric(axes, oldAxes, |axes|);
        if kind == Steering then
          if axis.None? then None else Some(AxisBinding(Index(axis.value), Bidirectional, axes[axis.value] < 0.0))
        else
          var button := PressedNumeric(buttons, oldButtons, 0);
          if button.Some? then Some(ButtonBinding(button.value))
          else if axis.None? then None
          else Some(AxisBinding(Index(axis.value), SignedDirection(axes[axis.value]), false))
    case WheelEvent(isState, axes, buttons, oldAxes, oldButtons) =>
      if device != Wheel || !isState then None
      else if kind == Steering then
        var steer := MovedNumeric(axes[..1], oldAxes, 1);
        if steer.None? then None else Some(AxisBinding(Name("steering"), Bidirectional, axes[0] < 0.0))
      else
        var button := PressedButton(buttons, oldButtons, 0);
        if button.Some? then Some(ButtonBinding(button.value))
        else
          var axis := MovedNumeric(axes, oldAxes, 4);
          if axis.None? then None
          else Some(AxisBinding(Name(WheelAxis(axis.value)), SignedDirection(axes[axis.value]), false))
  }

  /** Every captured binding fits the action it was captured for. */
  lemma {:induction false} CapturedFits(device: Device, kind: ActionKind, event: Event)
    requires event.WheelEvent? ==> |event.axes| == 4
    ensures Capture(device, kind, event).Some? ==> Fits(Capture(device, kind, event).value, device, kind)
  {
    var captured := Capture(device, kind, event);
    if captured.Some? {
      FitsMeaning(captured.value, device, kind);
      if event.KeyEvent? {
        CanonicalIdempotent(event.key);
      }
    }
  }

  // ---------- what a captured binding measures ----------

  /** The part of a wheel that an axis name stands for. */
  function WheelPart(name: string): nat {
    if name == "steering" then 0 else if name == "throttle" then 1 else if name == "brake" then 2
    else if name == "clutch" then 3 else 4
  }

  function ValueAt(values: seq<real>, i: int): real { if 0 <= i < |values| then values[i] else 0.0 }

  function AxisValue(code: Code, axes: seq<real>): real {
    match code
    case Index(i) => ValueAt(axes, i)
    case Name(name) => ValueAt(axes, WheelPart(name))
  }

  /** How far an input presses a binding: its button, or its axis in the binding's direction. */
  function BindingValue(b: Binding, event: Event): real {
    match event
    case KeyEvent(pressed, key) => if pressed && b.code == Name(CanonicalKey(key)) then 1.0 else 0.0
    case PadEvent(_, axes, buttons, _, _) =>
      if b.kind == Button then (if b.code.Index? then ValueAt(buttons, b.code.index) else 0.0)
      else Directed(b, AxisValue(b.code, axes))
    case WheelEvent(_, axes, buttons, _, _) =>
      if b.kind == Button then
        if b.code.Index? && 0 <= b.code.index < |buttons| && buttons[b.code.index] then 1.0 else 0.0
      else Directed(b, AxisValue(b.code, axes))
  }

  function Directed(b: Binding, value: real): real {
    match b.direction
    case Bidirectional => if b.invert then -value else value
    case Positive => Max(0.0, value)
    case Negative => Max(0.0, -value)
  }

  /** The same controller as it was before. */
  function Earlier(event: Event): Event {
    match event
    case KeyEvent(_, key) => KeyEvent(false, key)
    case PadEvent(isState, _, _, oldAxes, oldButtons) => PadEvent(isState, oldAxes, oldButtons, [], [])
    case WheelEvent(isState, _, _, oldAxes, oldButtons) => WheelEvent(isState, oldAxes, oldButtons, [], [])
  }

  /** The input presses the binding by half its way or more, and did not before. */
  predicate Crosses(b: Binding, event: Event) {
    BindingValue(b, event) >= 0.5 && BindingValue(b, Earlier(event)) < 0.5
  }

  lemma {:induction false} PressedIs(values: seq<real>, baseline: seq<real>, i: nat)
    requires i <= |values|
    ensures match PressedNumeric(values, baseline, i)
            case Some(k) => i <= k < |values| && values[k] >= 0.5 && ValueAt(baseline, k) < 0.5
            case None => forall k :: i <= k < |values| ==> values[k] < 0.5 || ValueAt(baseline, k) >= 0.5
    decreases |values| - i
  {
    if i < |values| {
      PressedIs(values, baseline, i + 1);
    }
  }

  lemma {:induction false} PressedButtonIs(values: seq<bool>, baseline: seq<bool>, i: nat)
    requires i <= |values|
    ensures match PressedButton(values, baseline, i)
            case Some(k) => i <= k < |values| && values[k] && !(k < |baseline| && baseline[k])
            case None => forall k :: i <= k < |values| ==> !values[k] || (k < |baseline| && baseline[k])
    decreases |values| - i
  {
    if i < |values| {
      PressedButtonIs(values, baseline, i + 1);
    }
  }

  /** What is captured is a binding that the input has just pressed, in the direction in which it was pressed. */
  lemma {:induction false} CapturedIsPressed(device: Device, kind: ActionKind, event: Event)
    requires event.WheelEvent? ==> |event.axes| == 4
    ensures Capture(device, kind, event).Some? ==> Crosses(Capture(device, kind, event).value, event)
  {
    match event
    case KeyEvent(_, _) =>
    case PadEvent(_, axes, buttons, oldAxes, oldButtons) => PressedIs(buttons, oldButtons, 0);
    case WheelEvent(_, axes, buttons, oldAxes, oldButtons) => PressedButtonIs(buttons, oldButtons, 0);
  }

  /** On a gamepad nothing is missed: without a capture no fitting binding has just been pressed from near its rest. */
  lemma {:induction false} NothingPressedUncaptured(kind: ActionKind, event: Event, b: Binding)
    requires event.PadEvent? && event.isState && Capture(Gamepad, kind, event).None? && Fits(b, Gamepad, kind)
    requires b.kind == Axis ==> Abs(AxisValue(b.code, event.oldAxes)) < 0.5
    ensures !Crosses(b, event)
  {
    FitsMeaning(b, Gamepad, kind);
    PressedIs(event.buttons, event.oldButtons, 0);
    assert forall k :: 0 <= k < |event.axes| ==> !Moved(event.axes, event.oldAxes, k);
  }

  /** A key is captured exactly when it is pressed and neither nameless nor reserved. */
  lemma {:induction false} KeyCaptured(kind: ActionKind, pressed: bool, key: string)
    ensures Capture(Keyboard, kind, KeyEvent(pressed, key)).Some?
            <==> pressed && CanonicalKey(key) != "" && CanonicalKey(key) !in RESERVED_KEYS
  {
  }

  // ---------- what keys are called ----------

  /** Capitals and outer blanks do not matter, and some keys have a second name. */
  lemma {:induction false} KeyAliases(value: string)
    ensures Strip(Lower(value)) == "arrowup" ==> CanonicalKey(value) == "up"
    ensures Strip(Lower(value)) == "arrowdown" ==> CanonicalKey(value) == "down"
    ensures Strip(Lower(value)) == "arrowleft" ==> CanonicalKey(value) == "left"
    ensures Strip(Lower(value)) == "arrowright" ==> CanonicalKey(value) == "right"
    ensures Strip(Lower(value)) == "esc" ==> CanonicalKey(value) == "escape"
    ensures Strip(Lower(value)) == "del" ==> CanonicalKey(value) == "delete"
    ensures Strip(Lower(value)) == "spacebar" || value == " " ==> CanonicalKey(value) == "space"
  {
    assert Lower(" ") == " ";
    assert StripLeft(" ") == "";
  }

  /** Two spellings that differ only in capitals name the same key. */
  lemma {:induction false} CaseIsIgnored(a: string, b: string)
    requires |a| == |b|
    requires forall i :: 0 <= i < |a| ==>
               a[i] == b[i] || ('A' <= a[i] <= 'Z' && b[i] as int - 'a' as int == a[i] as int - 'A' as int)
    ensures CanonicalKey(a) == CanonicalKey(b)
  {
    assert Lower(a) == Lower(b);
  }

  /** Every other key keeps its name. */
  lemma {:induction false} KeyKeepsName(value: string)
    requires Plain(value)
    requires value !in {"arrowup", "arrowdown", "arrowleft", "arrowright", "esc", "del", "spacebar"}
    ensures CanonicalKey(value) == value
  {
    PlainFixed(value);
  }
}
