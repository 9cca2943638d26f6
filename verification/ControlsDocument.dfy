/** Saving device controls sparsely and loading them over the built-in defaults. */
module ControlsDocument {
  import opened Prelude
  import opened Bindings
  import opened Controls

  type Document = map<string, Yaml>

  // ---------- saving ----------

  function SlotYaml(b: Option<Binding>, device: Device): Yaml {
    match b case None => YNull case Some(binding) => ToYaml(binding, device)
  }

  function SlotsYaml(slots: Slots, device: Device): (r: Yaml)
    ensures r.YSeq? && |r.items| == |slots|
  {
    YSeq(seq(|slots|, i requires 0 <= i < |slots| => SlotYaml(slots[i], device)))
  }

  /** Only the actions that differ from the defaults are written. */
  function Sparse(device: Device, defaults: Settings, s: Settings): Document
    requires s.Keys <= defaults.Keys
  {
    map name | name in s && s[name] != defaults[name] :: SlotsYaml(s[name], device)
  }

  // ---------- loading ----------

  predicate SlotParses(raw: Yaml, device: Device, kind: ActionKind) {
    raw == YNull || FromYaml(raw, device, kind).Some?
  }

  function SlotOf(raw: Yaml, device: Device, kind: ActionKind): Option<Binding> {
    if raw == YNull then None else FromYaml(raw, device, kind)
  }

  /** A sequence of at most two bindings or nulls, padded to two slots. */
  function ParseSlots(raw: Yaml, device: Device, kind: ActionKind): (r: Option<Slots>)
    ensures r.Some? <==> && raw.YSeq? && |raw.items| <= 2
                         && forall i :: 0 <= i < |raw.items| ==>
                              raw.items[i] == YNull || FromYaml(raw.items[i], device, kind).Some?
    ensures r.Some? ==>
              && |r.value| == 2
              && (forall i :: 0 <= i < |raw.items| ==>
                    r.value[i] == if raw.items[i] == YNull then None else FromYaml(raw.items[i], device, kind))
              && (forall i :: |raw.items| <= i < 2 ==> r.value[i] == None)
  {
    if !raw.YSeq? || |raw.items| > 2 then None
    else if exists i :: 0 <= i < |raw.items| && !SlotParses(raw.items[i], device, kind) then None
    else Some(seq(2, i requires 0 <= i < 2 => if i < |raw.items| then SlotOf(raw.items[i], device, kind) else None))
  }

  ghost predicate Parses(device: Device, schema: Schema, doc: Document) {
    && doc.Keys <= Names(schema)
    && forall name :: name in doc ==> ParseSlots(doc[name], device, KindOf(schema, name)).Some?
  }

  /** The actions a document sets. */
  ghost function Authored(device: Device, schema: Schema, doc: Document): Settings
    requires Parses(device, schema, doc)
  {
    map name | name in doc :: ParseSlots(doc[name], device, KindOf(schema, name)).value
  }

  ghost predicate Claimed(authored: Settings, b: Binding) {
    exists p :: Has(authored, p) && Get(authored, p) == Some(b)
  }

  /** A default binding survives unless the document uses it elsewhere. */
  ghost function Spared(slot: Option<Binding>, authored: Settings): Option<Binding> {
    if slot.Some? && Claimed(authored, slot.value) then None else slot
  }

  ghost function Merged(schema: Schema, defaults: Settings, authored: Settings): Settings
    requires Shaped(schema, defaults)
  {
    map name | name in Names(schema) ::
      if name in authored then authored[name]
      else seq(2, i requires 0 <= i < 2 => Spared(defaults[name][i], authored))
  }

  /** The settings a document stands for; `None` is a controls error. */
  ghost function Overlaid(device: Device, schema: Schema, defaults: Settings, doc: Document): Option<Settings>
    requires Shaped(schema, defaults)
  {
    if !Parses(device, schema, doc) then None
    else
      var authored := Authored(device, schema, doc);
      var merged := Merged(schema, defaults, authored);
      if !NoDuplicates(authored) || !Valid(device, schema, merged) then None else Some(merged)
  }

  lemma {:induction false} AuthoredFits(device: Device, schema: Schema, doc: Document, p: Place)
    requires Parses(device, schema, doc) && Has(Authored(device, schema, doc), p)
    ensures p.name in Names(schema)
    ensures Get(Authored(device, schema, doc), p).Some? ==>
              Fits(Get(Authored(device, schema, doc), p).value, device, KindOf(schema, p.name))
  {
    var raw := doc[p.name];
    if p.slot < |raw.items| {
      ParsedFits(raw.items[p.slot], device, KindOf(schema, p.name));
    }
  }

  /**
   * A document loads exactly when every key is an action, every value parses and no authored binding repeats; what
   * it loads is then valid, keeps everything authored, and drops a default only where the document uses it elsewhere.
   */
  lemma {:induction false} LoadsExactly(device: Device, schema: Schema, defaults: Settings, doc: Document)
    requires Valid(device, schema, defaults)
    ensures Overlaid(device, schema, defaults, doc).Some? <==>
            Parses(device, schema, doc) && NoDuplicates(Authored(device, schema, doc))
    ensures Overlaid(device, schema, defaults, doc).Some? ==>
              var r := Overlaid(device, schema, defaults, doc).value;
              var authored := Authored(device, schema, doc);
              && Valid(device, schema, r)
              && (forall p :: Has(authored, p) ==> Has(r, p) && Get(r, p) == Get(authored, p))
              && (forall p :: Has(r, p) && p.name !in authored ==>
                    Get(r, p) == Get(defaults, p)
                    || (Get(r, p) == None && Get(defaults, p).Some? && Claimed(authored, Get(defaults, p).value)))
  {
    if Parses(device, schema, doc) && NoDuplicates(Authored(device, schema, doc)) {
      MergedIsValid(device, schema, defaults, doc);
    }
  }

  lemma {:induction false} MergedGet(schema: Schema, defaults: Settings, authored: Settings, p: Place)
    requires Shaped(schema, defaults) && Has(Merged(schema, defaults, authored), p)
    ensures var r := Merged(schema, defaults, authored);
            if p.name in authored then Has(authored, p) && Get(r, p) == Get(authored, p)
            else Has(defaults, p) && Get(r, p) == Spared(Get(defaults, p), authored)
  {
  }

  lemma {:induction false} MergedFits(device: Device, schema: Schema, defaults: Settings, doc: Document, p: Place)
    requires Valid(device, schema, defaults) && Parses(device, schema, doc)
    requires var r := Merged(schema, defaults, Authored(device, schema, doc)); Has(r, p) && Get(r, p).Some?
    ensures p.name in Names(schema)
    ensures Fits(Get(Merged(schema, defaults, Authored(device, schema, doc)), p).value, device, KindOf(schema, p.name))
  {
    var authored := Authored(device, schema, doc);
    MergedGet(schema, defaults, authored, p);
    if p.name in authored {
      AuthoredFits(device, schema, doc, p);
    }
  }

  lemma {:induction false} MergedUnique(schema: Schema, defaults: Settings, authored: Settings, p: Place, q: Place)
    requires Shaped(schema, defaults) && NoDuplicates(defaults) && NoDuplicates(authored)
    requires var r := Merged(schema, defaults, authored);
             Has(r, p) && Has(r, q) && Get(r, p).Some? && Get(r, p) == Get(r, q)
    ensures p == q
  {
    MergedGet(schema, defaults, authored, p);
    MergedGet(schema, defaults, authored, q);
  }

  lemma {:induction false} MergedIsValid(device: Device, schema: Schema, defaults: Settings, doc: Document)
    requires Valid(device, schema, defaults) && Parses(device, schema, doc)
             && NoDuplicates(Authored(device, schema, doc))
    ensures Valid(device, schema, Merged(schema, defaults, Authored(device, schema, doc)))
  {
    var authored := Authored(device, schema, doc);
    var r := Merged(schema, defaults, authored);
    forall p | Has(r, p) && Get(r, p).Some? ensures Fits(Get(r, p).value, device, KindOf(schema, p.name)) {
      MergedFits(device, schema, defaults, doc, p);
    }
    forall p, q | Has(r, p) && Has(r, q) && Get(r, p).Some? && Get(r, p) == Get(r, q) ensures p == q {
      MergedUnique(schema, defaults, authored, p, q);
    }
  }

  // ---------- the round trip ----------

  lemma {:induction false} SparseSlotsParse(device: Device, schema: Schema, s: Settings, name: string)
    requires Valid(device, schema, s) && name in s
    ensures ParseSlots(SlotsYaml(s[name], device), device, KindOf(schema, name)) == Some(s[name])
  {
    var raw := SlotsYaml(s[name], device);
    var kind := KindOf(schema, name);
    forall i | 0 <= i < 2
      ensures SlotParses(raw.items[i], device, kind) && SlotOf(raw.items[i], device, kind) == s[name][i]
    {
      assert Has(s, Place(name, i)) && Get(s, Place(name, i)) == s[name][i];
    }
    assert ParseSlots(raw, device, kind).value == s[name];
  }

  lemma {:induction false} SparseAuthored(device: Device, schema: Schema, defaults: Settings, s: Settings)
    requires Shaped(schema, defaults) && Valid(device, schema, s)
    ensures Parses(device, schema, Sparse(device, defaults, s))
    ensures Authored(device, schema, Sparse(device, defaults, s))
            == map name | name in s && s[name] != defaults[name] :: s[name]
  {
    var doc := Sparse(device, defaults, s);
    forall name | name in doc ensures ParseSlots(doc[name], device, KindOf(schema, name)) == Some(s[name]) {
      SparseSlotsParse(device, schema, s, name);
    }
  }

  lemma {:induction false} MergedBackAt(schema: Schema, defaults: Settings, s: Settings, authored: Settings,
                                        name: string)
    requires Shaped(schema, defaults) && Shaped(schema, s) && NoDuplicates(s) && name in Names(schema)
    requires forall p :: Has(authored, p) ==> Has(s, p) && Get(authored, p) == Get(s, p)
    requires if name in authored then authored[name] == s[name] else s[name] == defaults[name]
    ensures Merged(schema, defaults, authored)[name] == s[name]
  {
    if name !in authored {
      assert Has(s, Place(name, 0)) && Has(s, Place(name, 1));
    }
  }

  lemma {:induction false} MergedBack(schema: Schema, defaults: Settings, s: Settings, authored: Settings)
    requires Shaped(schema, defaults) && Shaped(schema, s) && NoDuplicates(s)
    requires authored == map name | name in s && s[name] != defaults[name] :: s[name]
    ensures Merged(schema, defaults, authored) == s
  {
    assert forall p :: Has(authored, p) ==> Has(s, p) && Get(authored, p) == Get(s, p);
    forall name | name in Names(schema) ensures Merged(schema, defaults, authored)[name] == s[name] {
      MergedBackAt(schema, defaults, s, authored, name);
    }
  }

  lemma {:induction false} SparseDistinct(s: Settings, authored: Settings)
    requires NoDuplicates(s) && forall name :: name in authored ==> name in s && authored[name] == s[name]
    ensures NoDuplicates(authored)
  {
    forall p, q | Has(authored, p) && Has(authored, q) && Get(authored, p).Some? && Get(authored, p) == Get(authored, q)
      ensures p == q
    {
      assert Has(s, p) && Has(s, q) && Get(s, p) == Get(s, q);
    }
  }

  /** Saving and loading gives back any valid settings. */
  lemma {:induction false} SaveLoadRoundTrip(device: Device, schema: Schema, defaults: Settings, s: Settings)
    requires Valid(device, schema, defaults) && Valid(device, schema, s)
    ensures Overlaid(device, schema, defaults, Sparse(device, defaults, s)) == Some(s)
  {
    var doc := Sparse(device, defaults, s);
    SparseAuthored(device, schema, defaults, s);
    var authored := Authored(device, schema, doc);
    SparseDistinct(s, authored);
    MergedBack(schema, defaults, s, authored);
  }

  // ---------- the loops ----------

  /** `names` lists a set of action names, each once. */
  ghost predicate Lists(names: seq<string>, keys: set<string>) {
    && (forall i, j :: 0 <= i < j < |names| ==> names[i] != names[j])
    && (forall name :: name in names <==> name in keys)
  }

  ghost predicate TwoSlots(s: Settings) {
    forall name :: name in s ==> |s[name]| == 2
  }

  /** The slots of the listed actions, two by two. */
  function FlatSlots(names: seq<string>, s: Settings): (r: seq<Option<Binding>>)
    requires forall i :: 0 <= i < |names| ==> names[i] in s && |s[names[i]]| == 2
    ensures |r| == 2 * |names|
    ensures forall m :: 0 <= m < |r| ==> r[m] == s[names[m / 2]][m % 2]
  {
    seq(2 * |names|, m requires 0 <= m < 2 * |names| => s[names[m / 2]][m % 2])
  }

  ghost predicate SlotsDistinct(slots: seq<Option<Binding>>) {
    forall m, n :: 0 <= m < n < |slots| && slots[m].Some? ==> slots[m] != slots[n]
  }

  /** Scan slots for a binding met before, collecting the bindings. */
  method FindRepeat(slots: seq<Option<Binding>>) returns (distinct: bool, seen: set<Binding>)
    ensures distinct <==> SlotsDistinct(slots)
    ensures distinct ==> forall b :: b in seen <==> Some(b) in slots
  {
    seen := {};
    for m := 0 to |slots|
      invariant forall b :: b in seen <==> Some(b) in slots[..m]
      invariant SlotsDistinct(slots[..m])
    {
      assert slots[..m + 1] == slots[..m] + [slots[m]];
      if slots[m].Some? {
        if slots[m].value in seen {
          var k :| 0 <= k < m && slots[..m][k] == slots[m];
          assert slots[k] == slots[m];
          return false, seen;
        }
        seen := seen + {slots[m].value};
      }
    }
    assert slots[..|slots|] == slots;
    distinct := true;
  }

  lemma {:induction false} PlaceIndex(names: seq<string>, s: Settings, p: Place) returns (m: nat)
    requires TwoSlots(s) && Lists(names, s.Keys) && Has(s, p)
    ensures m < |FlatSlots(names, s)| && FlatSlots(names, s)[m] == Get(s, p)
    ensures names[m / 2] == p.name && m % 2 == p.slot
  {
    var i: nat :| i < |names| && names[i] == p.name;
    m := 2 * i + p.slot;
  }

  lemma {:induction false} IndexPlace(names: seq<string>, s: Settings, m: nat) returns (p: Place)
    requires TwoSlots(s) && Lists(names, s.Keys) && m < |FlatSlots(names, s)|
    ensures Has(s, p) && Get(s, p) == FlatSlots(names, s)[m]
    ensures p == Place(names[m / 2], m % 2)
  {
    p := Place(names[m / 2], m % 2);
    assert names[m / 2] in names;
  }

  lemma {:induction false} DistinctMeans(names: seq<string>, s: Settings)
    requires TwoSlots(s) && Lists(names, s.Keys)
    ensures SlotsDistinct(FlatSlots(names, s)) <==> NoDuplicates(s)
  {
    var flat := FlatSlots(names, s);
    if SlotsDistinct(flat) {
      forall p, q | Has(s, p) && Has(s, q) && Get(s, p).Some? && Get(s, p) == Get(s, q) ensures p == q {
        var m := PlaceIndex(names, s, p);
        var n := PlaceIndex(names, s, q);
        assert m == n;
      }
    }
    if NoDuplicates(s) {
      forall m: nat, n: nat | m < n < |flat| && flat[m].Some? ensures flat[m] != flat[n] {
        var p := IndexPlace(names, s, m);
        var q := IndexPlace(names, s, n);
      }
    }
  }

  lemma {:induction false} ClaimedMeans(names: seq<string>, s: Settings, b: Binding)
    requires TwoSlots(s) && Lists(names, s.Keys)
    ensures Some(b) in FlatSlots(names, s) <==> Claimed(s, b)
  {
    var flat := FlatSlots(names, s);
    if Some(b) in flat {
      var m: nat :| m < |flat| && flat[m] == Some(b);
      var p := IndexPlace(names, s, m);
    }
    if Claimed(s, b) {
      var p :| Has(s, p) && Get(s, p) == Some(b);
      var m := PlaceIndex(names, s, p);
      assert flat[m] == Some(b);
    }
  }

  function FieldNames(schema: Schema): (r: seq<string>)
    ensures |r| == |schema| && forall i :: 0 <= i < |schema| ==> r[i] == schema[i].name
  {
    seq(|schema|, i requires 0 <= i < |schema| => schema[i].name)
  }

  /** Two slots, each empty or holding a fitting binding. */
  predicate SlotsFit(device: Device, kind: ActionKind, slots: Slots) {
    |slots| == 2 && forall t :: 0 <= t < 2 && slots[t].Some? ==> Fits(slots[t].value, device, kind)
  }

  lemma {:induction false} AllSlotsFit(device: Device, schema: Schema, s: Settings)
    requires s.Keys == Names(schema)
    ensures (forall name :: name in s ==> SlotsFit(device, KindOf(schema, name), s[name]))
            <==> Shaped(schema, s) && AllFit(device, schema, s)
  {
    if Shaped(schema, s) && AllFit(device, schema, s) {
      forall name | name in s ensures SlotsFit(device, KindOf(schema, name), s[name]) {
        assert Has(s, Place(name, 0)) && Has(s, Place(name, 1));
        assert Get(s, Place(name, 0)) == s[name][0] && Get(s, Place(name, 1)) == s[name][1];
      }
    }
  }

  method CheckSlots(device: Device, kind: ActionKind, slots: Slots) returns (ok: bool)
    ensures ok <==> SlotsFit(device, kind, slots)
  {
    if |slots| != 2 {
      return false;
    }
    for j := 0 to 2
      invariant forall t :: 0 <= t < j && slots[t].Some? ==> Fits(slots[t].value, device, kind)
    {
      if slots[j].Some? && FromYaml(ToYaml(slots[j].value, device), device, kind) != slots[j] {
        return false;
      }
    }
    ok := true;
  }

  method CheckAllSlots(device: Device, schema: Schema, s: Settings, names: seq<string>) returns (ok: bool)
    requires s.Keys == Names(schema) && Lists(names, s.Keys)
    ensures ok <==> forall name :: name in s ==> SlotsFit(device, KindOf(schema, name), s[name])
  {
    for i := 0 to |names|
      invariant forall name :: name in names[..i] ==> name in s && SlotsFit(device, KindOf(schema, name), s[name])
    {
      assert names[i] in names;
      ok := CheckSlots(device, KindOf(schema, names[i]), s[names[i]]);
      if !ok {
        return;
      }
      assert names[..i + 1] == names[..i] + [names[i]];
    }
    assert names[..|names|] == names;
    ok := true;
  }

  /** Check slot counts, then that every binding survives its document form, then that none repeats. */
  method ValidateControls(device: Device, schema: Schema, s: Settings) returns (ok: bool)
    requires GoodSchema(schema) && s.Keys == Names(schema)
    ensures ok <==> Valid(device, schema, s)
  {
    var names := FieldNames(schema);
    AllSlotsFit(device, schema, s);
    ok := CheckAllSlots(device, schema, s, names);
    if ok {
      DistinctMeans(names, s);
      assert forall i :: 0 <= i < |names| ==> names[i] in names;
      var seen;
      ok, seen := FindRepeat(FlatSlots(names, s));
    }
  }

  /** The values of a document have been parsed except under `keys`. */
  ghost predicate ParsedBut(device: Device, schema: Schema, doc: Document, keys: set<string>, updates: Settings) {
    && doc.Keys <= Names(schema) && keys <= doc.Keys && updates.Keys == doc.Keys - keys
    && forall name :: name in updates ==> ParseSlots(doc[name], device, KindOf(schema, name)) == Some(updates[name])
  }

  lemma {:induction false} ParsedOneMore(device: Device, schema: Schema, doc: Document, keys: set<string>,
                                         updates: Settings, name: string, slots: Slots)
    requires ParsedBut(device, schema, doc, keys, updates) && name in keys && name in Names(schema)
    requires ParseSlots(doc[name], device, KindOf(schema, name)) == Some(slots)
    ensures ParsedBut(device, schema, doc, keys - {name}, updates[name := slots])
    ensures name !in updates && updates[name := slots].Keys == updates.Keys + {name}
  {
  }

  lemma {:induction false} ParsedWhole(device: Device, schema: Schema, doc: Document, updates: Settings)
    requires ParsedBut(device, schema, doc, {}, updates)
    ensures Parses(device, schema, doc) && updates == Authored(device, schema, doc)
  {
    forall name | name in doc ensures ParseSlots(doc[name], device, KindOf(schema, name)).Some? {
      assert name in updates;
    }
  }

  /** Parse every value of a document; the order in which its keys are visited does not matter. */
  method ParseAll(device: Device, schema: Schema, doc: Document) returns (parsed: Option<Settings>, names: seq<string>)
    ensures parsed.Some? <==> Parses(device, schema, doc)
    ensures parsed.Some? ==> parsed.value == Authored(device, schema, doc) && Lists(names, parsed.value.Keys)
  {
    names := [];
    if !(doc.Keys <= Names(schema)) {
      return None, names;
    }
    var updates: Settings := map[];
    var keys := doc.Keys;
    while keys != {}
      invariant ParsedBut(device, schema, doc, keys, updates) && Lists(names, updates.Keys)
      decreases keys
    {
      var name :| name in keys;
      var slots := ParseSlots(doc[name], device, KindOf(schema, name));
      if slots.None? {
        return None, names;
      }
      ParsedOneMore(device, schema, doc, keys, updates, name, slots.value);
      ListOneMore(names, updates.Keys, name);
      updates := updates[name := slots.value];
      names := names + [name];
      keys := keys - {name};
    }
    ParsedWhole(device, schema, doc, updates);
    parsed := Some(updates);
  }

  lemma {:induction false} ListOneMore(names: seq<string>, keys: set<string>, name: string)
    requires Lists(names, keys) && name !in keys
    ensures Lists(names + [name], keys + {name})
  {
  }

  /** The slots one action ends up with. */
  ghost function MergedSlots(defaults: Settings, authored: Settings, name: string): Slots
    requires name in defaults && |defaults[name]| == 2
  {
    if name in authored then authored[name]
    else [Spared(defaults[name][0], authored), Spared(defaults[name][1], authored)]
  }

  lemma {:induction false} MergedIs(schema: Schema, defaults: Settings, authored: Settings, name: string)
    requires Shaped(schema, defaults) && name in Names(schema)
    ensures Merged(schema, defaults, authored)[name] == MergedSlots(defaults, authored, name)
  {
  }

  method MergeSlots(defaults: Settings, authored: Settings, bindings: set<Binding>, name: string) returns (slots: Slots)
    requires name in defaults && |defaults[name]| == 2
    requires forall b :: b in bindings <==> Claimed(authored, b)
    ensures slots == MergedSlots(defaults, authored, name)
  {
    if name in authored {
      return authored[name];
    }
    slots := [];
    for t := 0 to 2
      invariant |slots| == t
      invariant forall k :: 0 <= k < t ==> slots[k] == Spared(defaults[name][k], authored)
    {
      var slot := defaults[name][t];
      slots := slots + [if slot.Some? && slot.value in bindings then None else slot];
    }
  }

  /** Load a document over the defaults. */
  method OverlayControls(device: Device, schema: Schema, defaults: Settings, doc: Document)
    returns (r: Option<Settings>)
    requires GoodSchema(schema) && Shaped(schema, defaults)
    ensures r == Overlaid(device, schema, defaults, doc)
  {
    var parsed, names := ParseAll(device, schema, doc);
    if parsed.None? {
      return None;
    }
    var updates := parsed.value;
    assert forall i :: 0 <= i < |names| ==> names[i] in names;
    DistinctMeans(names, updates);
    var distinct, bindings := FindRepeat(FlatSlots(names, updates));
    if !distinct {
      return None;
    }
    forall b ensures b in bindings <==> Claimed(updates, b) {
      ClaimedMeans(names, updates, b);
    }
    var settings := MergeAll(schema, defaults, updates, bindings);
    var ok := ValidateControls(device, schema, settings);
    r := if ok then Some(settings) else None;
  }

  method MergeAll(schema: Schema, defaults: Settings, authored: Settings, bindings: set<Binding>)
    returns (settings: Settings)
    requires GoodSchema(schema) && Shaped(schema, defaults)
    requires forall b :: b in bindings <==> Claimed(authored, b)
    ensures settings == Merged(schema, defaults, authored)
  {
    var fields := FieldNames(schema);
    settings := map[];
    for i := 0 to |fields|
      invariant forall name :: name in settings <==> name in fields[..i]
      invariant forall name ::
                  name in settings ==> name in defaults && settings[name] == MergedSlots(defaults, authored, name)
    {
      assert fields[i] in fields;
      assert fields[..i + 1] == fields[..i] + [fields[i]];
      var slots := MergeSlots(defaults, authored, bindings, fields[i]);
      settings := settings[fields[i] := slots];
    }
    assert fields[..|fields|] == fields;
    MergedWhole(schema, defaults, authored, settings);
  }

  lemma {:induction false} MergedWhole(schema: Schema, defaults: Settings, authored: Settings, settings: Settings)
    requires Shaped(schema, defaults) && settings.Keys == Names(schema)
    requires forall name ::
               name in settings ==> name in defaults && settings[name] == MergedSlots(defaults, authored, name)
    ensures settings == Merged(schema, defaults, authored)
  {
    forall name | name in Names(schema) ensures settings[name] == Merged(schema, defaults, authored)[name] {
      MergedIs(schema, defaults, authored, name);
    }
  }

  // ---------- the document object ----------

  /** Reading a document: a version other than one is an error, and the version key is not an action. */
  ghost function Loaded(device: Device, schema: Schema, defaults: Settings, doc: Document): Option<Settings>
    requires Shaped(schema, defaults)
  {
    if VERSION_KEY in doc && doc[VERSION_KEY] != YInt(1) then None
    else Overlaid(device, schema, defaults, doc - {VERSION_KEY})
  }

  /** A file without a version is read like one of version 1, and of any other version not at all. */
  lemma {:induction false} VersionDecides(device: Device, schema: Schema, defaults: Settings, doc: Document,
                                          version: Yaml)
    requires Shaped(schema, defaults) && VERSION_KEY !in doc
    ensures Loaded(device, schema, defaults, doc[VERSION_KEY := version])
            == if version == YInt(1) then Overlaid(device, schema, defaults, doc) else None
    ensures Loaded(device, schema, defaults, doc) == Overlaid(device, schema, defaults, doc)
  {
    assert doc[VERSION_KEY := version] - {VERSION_KEY} == doc && doc - {VERSION_KEY} == doc;
  }

  class ControlsFile {
    const device: Device
    const schema: Schema
    const defaults: Settings
    var settings: Settings
    var document: Document

    ghost predicate WellBuilt()
      reads this
    {
      GoodSchema(schema) && VERSION_KEY !in Names(schema) && Valid(device, schema, defaults)
    }

    /** A refused draft changes nothing; an accepted one replaces both, and the file then loads back to it. */
    method Save(draft: Settings) returns (ok: bool)
      requires WellBuilt() && draft.Keys == Names(schema)
      modifies this
      ensures ok <==> Valid(device, schema, draft)
      ensures !ok ==> settings == old(settings) && document == old(document)
      ensures ok ==> settings == draft
                     && document == Sparse(device, defaults, draft)[VERSION_KEY := YInt(1)]
                     && Loaded(device, schema, defaults, document) == Some(draft)
    {
      ok := ValidateControls(device, schema, draft);
      if !ok {
        return;
      }
      var desired := Sparse(device, defaults, draft)[VERSION_KEY := YInt(1)];
      document := SyncMapping(document, desired);
      settings := draft;
      SaveLoadRoundTrip(device, schema, defaults, draft);
      assert document - {VERSION_KEY} == Sparse(device, defaults, draft);
    }
  }

  /** Bring a mapping to the desired one by deleting what is not wanted and assigning what differs. */
  method SyncMapping(target: Document, desired: Document) returns (r: Document)
    ensures r == desired
  {
    r := target;
    var keys := target.Keys;
    while keys != {}
      invariant keys <= target.Keys
      invariant r == map key | key in target && (key in keys || key in desired) :: target[key]
      decreases keys
    {
      var key :| key in keys;
      if key !in desired {
        r := r - {key};
      }
      keys := keys - {key};
    }
    keys := desired.Keys;
    while keys != {}
      invariant keys <= desired.Keys && r.Keys <= desired.Keys
      invariant forall key :: key in desired && key !in keys ==> key in r && r[key] == desired[key]
      decreases keys
    {
      var key :| key in keys;
      if key !in r || r[key] != desired[key] {
        r := r[key := desired[key]];
      }
      keys := keys - {key};
    }
  }
}
