/** The settings document: reaching into the tree, feature dependencies, and saving what loads back. */
module SettingsDocument {
  import opened Prelude
  import opened SettingsTree

  type SettingPath = seq<string>

  // ---------- one setting of a tree ----------

  /** The value at a path; none when a name on it is not there. */
  function SettingValue(root: Value, path: SettingPath): Option<Value> {
    if path == [] then Some(root)
    else if root.VRecord? && path[0] in root.fields then SettingValue(root.fields[path[0]], path[1..])
    else None
  }

  /** The tree with one value replaced. */
  function Replaced(root: Value, path: SettingPath, v: Value): Option<Value> {
    if path == [] then Some(v)
    else if root.VRecord? && path[0] in root.fields then
      match Replaced(root.fields[path[0]], path[1..], v)
      case None => None
      case Some(updated) => Some(VRecord(root.fields[path[0] := updated]))
    else None
  }

  /** A path can be replaced exactly when it can be read. */
  lemma {:induction false} ReplacedIff(root: Value, path: SettingPath, v: Value)
    ensures Replaced(root, path, v).Some? <==> SettingValue(root, path).Some?
  {
    if path != [] && root.VRecord? && path[0] in root.fields {
      ReplacedIff(root.fields[path[0]], path[1..], v);
    }
  }

  /** Reading what was put. */
  lemma {:induction false} PutGet(root: Value, path: SettingPath, v: Value)
    requires Replaced(root, path, v).Some?
    ensures SettingValue(Replaced(root, path, v).value, path) == Some(v)
  {
    if path != [] {
      PutGet(root.fields[path[0]], path[1..], v);
    }
  }

  /** Putting what was read. */
  lemma {:induction false} GetPut(root: Value, path: SettingPath)
    requires SettingValue(root, path).Some?
    ensures Replaced(root, path, SettingValue(root, path).value) == Some(root)
  {
    if path != [] {
      GetPut(root.fields[path[0]], path[1..]);
      assert root.fields[path[0] := root.fields[path[0]]] == root.fields;
    }
  }

  /** Of two puts at one path the last counts. */
  lemma {:induction false} PutPut(root: Value, path: SettingPath, v: Value, w: Value)
    requires Replaced(root, path, v).Some?
    ensures Replaced(Replaced(root, path, v).value, path, w) == Replaced(root, path, w)
  {
    if path != [] {
      PutPut(root.fields[path[0]], path[1..], v, w);
      ReplacedIff(root.fields[path[0]], path[1..], w);
      ReplacedIff(root.fields[path[0]], path[1..], v);
      var u := Replaced(root.fields[path[0]], path[1..], v).value;
      var x := Replaced(root.fields[path[0]], path[1..], w).value;
      assert root.fields[path[0] := u][path[0] := x] == root.fields[path[0] := x];
    }
  }

  /** Neither path leads through the other. */
  predicate Apart(p: SettingPath, q: SettingPath) {
    p != [] && q != [] && (p[0] != q[0] || Apart(p[1..], q[1..]))
  }

  /** Putting at one path leaves every path apart from it as it was. */
  lemma {:induction false} PutElsewhere(root: Value, p: SettingPath, q: SettingPath, v: Value)
    requires Replaced(root, p, v).Some? && Apart(p, q)
    ensures SettingValue(Replaced(root, p, v).value, q) == SettingValue(root, q)
  {
    if p[0] == q[0] {
      PutElsewhere(root.fields[p[0]], p[1..], q[1..], v);
    }
  }

  // ---------- types under replacement ----------

  /** The declared field at a path and whether it can be set there by a user. */
  function ShapeAt(shape: Shape, path: SettingPath): Option<Shape> {
    if path == [] then Some(shape)
    else if shape.Record? && path[0] in shape.fields && shape.fields[path[0]].user then
      ShapeAt(shape.fields[path[0]].shape, path[1..])
    else None
  }

  /** An object with a flag somewhere inside has settings. */
  lemma {:induction false} FlagIsSetting(shape: Shape, root: Value, path: SettingPath)
    requires Conforms(root, shape) && path != [] && ShapeAt(shape, path) == Some(AnyBool)
    ensures HasSettings(shape, root) && path[0] in shape.fields && Visible(shape.fields[path[0]], root.fields[path[0]])
  {
    var f, v := shape.fields[path[0]], root.fields[path[0]];
    if path[1..] != [] {
      FlagIsSetting(f.shape, v, path[1..]);
    }
    assert RecordFields(shape) == Some(shape.fields) && Visible(f, v);
  }

  /** A flag may be put wherever one is declared. */
  lemma {:induction false} ReplacedConforms(shape: Shape, root: Value, path: SettingPath, b: bool)
    requires Conforms(root, shape) && ShapeAt(shape, path) == Some(AnyBool)
    ensures Replaced(root, path, VBool(b)).Some? && Conforms(Replaced(root, path, VBool(b)).value, shape)
  {
    if path != [] {
      ReplacedConforms(shape.fields[path[0]].shape, root.fields[path[0]], path[1..], b);
    }
  }

  /** Putting a flag changes settings only. */
  lemma {:induction false} ReplacedSameHidden(shape: Shape, before: Value, root: Value, path: SettingPath, b: bool)
    requires Conforms(root, shape) && ShapeAt(shape, path) == Some(AnyBool) && SameHidden(shape, before, root)
    requires Replaced(root, path, VBool(b)).Some? && Conforms(Replaced(root, path, VBool(b)).value, shape)
    ensures SameHidden(shape, before, Replaced(root, path, VBool(b)).value)
  {
    if path != [] {
      var k := path[0];
      var f := shape.fields[k];
      var updated := Replaced(root.fields[k], path[1..], VBool(b)).value;
      ReplacedConforms(f.shape, root.fields[k], path[1..], b);
      FlagIsSetting(shape, root, path);
      FlagIsSetting(shape, Replaced(root, path, VBool(b)).value, path);
      if before.VRecord? && k in before.fields {
        assert RecordFields(shape) == Some(shape.fields);
        assert Visible(f, before.fields[k]);
        ReplacedSameHidden(f.shape, before.fields[k], root.fields[k], path[1..], b);
      }
    }
  }

  // ---------- feature dependencies ----------

  const ITEMS_ENABLED: SettingPath := ["live_edit", "items", "enabled"]
  const ITEM_TYPES: SettingPath := ["live_edit", "items", "item_types"]
  const STYLE_ENABLED: SettingPath := ["live_edit", "style", "enabled"]
  const WEATHER_ENABLED: SettingPath := ["live_edit", "weather", "enabled"]

  /** A settings tree that has the four settings the dependencies speak of. */
  predicate HasLiveEdit(shape: Shape) {
    && ShapeAt(shape, ITEMS_ENABLED) == Some(AnyBool)
    && ShapeAt(shape, ITEM_TYPES).Some?
    && ShapeAt(shape, STYLE_ENABLED) == Some(AnyBool)
    && ShapeAt(shape, WEATHER_ENABLED) == Some(AnyBool)
  }

  function Flag(root: Value, path: SettingPath): bool {
    SettingValue(root, path) == Some(VBool(true))
  }

  /** The item types on offer, none while items are off. */
  function ItemTypes(root: Value): set<string> {
    match SettingValue(root, ITEM_TYPES)
    case Some(VTuple(items)) => if Flag(root, ITEMS_ENABLED) then set v | v in items && v.VString? :: v.s else {}
    case _ => {}
  }

  function NeedsStyle(root: Value): bool { Flag(root, STYLE_ENABLED) || "mystery" in ItemTypes(root) }

  function NeedsWeather(root: Value): bool {
    Flag(root, WEATHER_ENABLED) || "rain" in ItemTypes(root) || "snow" in ItemTypes(root)
  }

  function Put(root: Value, path: SettingPath, v: Value): Value {
    match Replaced(root, path, v) case None => root case Some(r) => r
  }

  /** Items that need style or weather switch it on. */
  function Normalized(root: Value): Value {
    Put(Put(root, STYLE_ENABLED, VBool(NeedsStyle(root))), WEATHER_ENABLED, VBool(NeedsWeather(root)))
  }

  lemma {:induction false} SettingIsThere(shape: Shape, root: Value, path: SettingPath)
    requires Conforms(root, shape) && ShapeAt(shape, path).Some?
    ensures SettingValue(root, path).Some? && Conforms(SettingValue(root, path).value, ShapeAt(shape, path).value)
  {
    if path != [] {
      SettingIsThere(shape.fields[path[0]].shape, root.fields[path[0]], path[1..]);
    }
  }

  lemma {:induction false} PathsApart()
    ensures Apart(STYLE_ENABLED, WEATHER_ENABLED) && Apart(WEATHER_ENABLED, STYLE_ENABLED)
    ensures Apart(STYLE_ENABLED, ITEMS_ENABLED) && Apart(STYLE_ENABLED, ITEM_TYPES)
    ensures Apart(WEATHER_ENABLED, ITEMS_ENABLED) && Apart(WEATHER_ENABLED, ITEM_TYPES)
  {
    assert STYLE_ENABLED[1..] == ["style", "enabled"] && WEATHER_ENABLED[1..] == ["weather", "enabled"];
    assert ITEMS_ENABLED[1..] == ["items", "enabled"] && ITEM_TYPES[1..] == ["items", "item_types"];
  }

  /** Normalising touches two flags and nothing that decides them. */
  lemma {:induction false} NormalizedReads(shape: Shape, root: Value)
    requires HasLiveEdit(shape) && Conforms(root, shape)
    ensures var n := Normalized(root);
            && SettingValue(n, STYLE_ENABLED) == Some(VBool(NeedsStyle(root)))
            && SettingValue(n, WEATHER_ENABLED) == Some(VBool(NeedsWeather(root)))
            && ItemTypes(n) == ItemTypes(root)
            && forall q ::
                Apart(STYLE_ENABLED, q) && Apart(WEATHER_ENABLED, q) ==> SettingValue(n, q) == SettingValue(root, q)
  {
    PathsApart();
    var mid := Put(root, STYLE_ENABLED, VBool(NeedsStyle(root)));
    SettingIsThere(shape, root, STYLE_ENABLED);
    SettingIsThere(shape, root, WEATHER_ENABLED);
    ReplacedIff(root, STYLE_ENABLED, VBool(NeedsStyle(root)));
    PutGet(root, STYLE_ENABLED, VBool(NeedsStyle(root)));
    PutElsewhere(root, STYLE_ENABLED, WEATHER_ENABLED, VBool(NeedsStyle(root)));
    ReplacedIff(mid, WEATHER_ENABLED, VBool(NeedsWeather(root)));
    PutGet(mid, WEATHER_ENABLED, VBool(NeedsWeather(root)));
    PutElsewhere(mid, WEATHER_ENABLED, STYLE_ENABLED, VBool(NeedsWeather(root)));
    forall q | Apart(STYLE_ENABLED, q) && Apart(WEATHER_ENABLED, q)
      ensures SettingValue(Normalized(root), q) == SettingValue(root, q)
    {
      PutElsewhere(root, STYLE_ENABLED, q, VBool(NeedsStyle(root)));
      PutElsewhere(mid, WEATHER_ENABLED, q, VBool(NeedsWeather(root)));
    }
  }

  ghost predicate IsOn(root: Value, path: SettingPath) { SettingValue(root, path) == Some(VBool(true)) }

  /** Items are spawned, and these are among them. */
  ghost predicate Spawns(root: Value, item: string) {
    IsOn(root, ITEMS_ENABLED)
    && match SettingValue(root, ITEM_TYPES)
       case Some(VTuple(items)) => VString(item) in items
       case _ => false
  }

  /**
   * After normalising, style effects are on exactly if they were or mystery items are spawned, and weather effects
   * exactly if they were or rain or snow items are; every other setting is as it was.
   */
  lemma {:induction false} FeaturesFollowItems(shape: Shape, root: Value)
    requires HasLiveEdit(shape) && Conforms(root, shape)
    ensures var n := Normalized(root);
            && (IsOn(n, STYLE_ENABLED) <==> IsOn(root, STYLE_ENABLED) || Spawns(root, "mystery"))
            && (IsOn(n, WEATHER_ENABLED)
                <==> IsOn(root, WEATHER_ENABLED) || Spawns(root, "rain") || Spawns(root, "snow"))
            && (forall item :: Spawns(n, item) <==> Spawns(root, item))
            && forall q :: Apart(STYLE_ENABLED, q) && Apart(WEATHER_ENABLED, q) ==>
                 SettingValue(n, q) == SettingValue(root, q)
  {
    NormalizedReads(shape, root);
    PathsApart();
    SpawnedItems(root);
    assert forall item :: item in ItemTypes(root) <==> Spawns(root, item);
  }

  lemma {:induction false} SpawnedItems(root: Value)
    ensures forall item :: item in ItemTypes(root) <==> Spawns(root, item)
  {
    forall item ensures item in ItemTypes(root) <==> Spawns(root, item) {
      match SettingValue(root, ITEM_TYPES)
      case Some(VTuple(items)) => assert forall v: Value :: v.VString? && v.s == item ==> v == VString(item);
      case _ =>
    }
  }

  /** Normalising twice is normalising once. */
  lemma {:induction false} NormalizedIsFixed(shape: Shape, root: Value)
    requires HasLiveEdit(shape) && Conforms(root, shape)
    ensures Normalized(Normalized(root)) == Normalized(root)
  {
    var n := Normalized(root);
    NormalizedReads(shape, root);
    assert NeedsStyle(n) == NeedsStyle(root) && NeedsWeather(n) == NeedsWeather(root);
    GetPut(n, STYLE_ENABLED);
    GetPut(n, WEATHER_ENABLED);
  }

  /** Normalised settings are still settings of the same program, and differ in settings only. */
  lemma {:induction false} NormalizedConforms(shape: Shape, before: Value, root: Value)
    requires HasLiveEdit(shape) && Conforms(root, shape)
    ensures Conforms(Normalized(root), shape)
    ensures SameHidden(shape, before, root) ==> SameHidden(shape, before, Normalized(root))
  {
    ReplacedConforms(shape, root, STYLE_ENABLED, NeedsStyle(root));
    var mid := Put(root, STYLE_ENABLED, VBool(NeedsStyle(root)));
    ReplacedConforms(shape, mid, WEATHER_ENABLED, NeedsWeather(root));
    if SameHidden(shape, before, root) {
      ReplacedSameHidden(shape, before, root, STYLE_ENABLED, NeedsStyle(root));
      ReplacedSameHidden(shape, before, mid, WEATHER_ENABLED, NeedsWeather(root));
    }
  }

  // ---------- saving and loading ----------

  const LIVE_EDIT: string := "live_edit"

  const MAP_CONTEXT: string := "map_context"

  /** A document without the one key retired from it. */
  function WithoutRetired(doc: map<string, Node>): map<string, Node> {
    if LIVE_EDIT in doc && doc[LIVE_EDIT].NMap? then doc[LIVE_EDIT := NMap(doc[LIVE_EDIT].entries - {MAP_CONTEXT})]
    else doc
  }

  /** The settings a document stands for over the defaults; `None` is a settings error. */
  function Loaded(shape: Shape, defaults: Value, doc: map<string, Node>, valid: Value -> bool,
                  locate: Locate): Option<Value>
  {
    if VERSION_KEY in doc && doc[VERSION_KEY] != NInt(1) then None
    else
      match Converted(NMap(WithoutRetired(doc) - {VERSION_KEY}), shape, defaults, locate)
      case None => None
      case Some(v) => if valid(Normalized(v)) then Some(Normalized(v)) else None
  }

  /** A file without a version is read like one of version 1, and of any other version not at all. */
  lemma {:induction false} VersionDecides(shape: Shape, defaults: Value, doc: map<string, Node>, version: Node,
                                          valid: Value -> bool, locate: Locate)
    requires VERSION_KEY !in doc
    ensures Loaded(shape, defaults, doc[VERSION_KEY := version], valid, locate)
            == if version == NInt(1) then Loaded(shape, defaults, doc, valid, locate) else None
  {
    assert LIVE_EDIT != VERSION_KEY;
    assert WithoutRetired(doc[VERSION_KEY := version]) - {VERSION_KEY} == WithoutRetired(doc) - {VERSION_KEY};
  }

  /** A file with the retired key, whatever stands there, is read like the one without it. */
  lemma {:induction false} RetiredIsIgnored(shape: Shape, defaults: Value, doc: map<string, Node>,
                                            features: map<string, Node>, left: Node, valid: Value -> bool,
                                            locate: Locate)
    requires MAP_CONTEXT !in features
    ensures Loaded(shape, defaults, doc[LIVE_EDIT := NMap(features[MAP_CONTEXT := left])], valid, locate)
            == Loaded(shape, defaults, doc[LIVE_EDIT := NMap(features)], valid, locate)
    ensures WithoutRetired(doc[LIVE_EDIT := NMap(features)]) == doc[LIVE_EDIT := NMap(features)]
  {
    var with, without := doc[LIVE_EDIT := NMap(features[MAP_CONTEXT := left])], doc[LIVE_EDIT := NMap(features)];
    assert features[MAP_CONTEXT := left] - {MAP_CONTEXT} == features && features - {MAP_CONTEXT} == features;
    assert WithoutRetired(with) == without && WithoutRetired(without) == without;
  }

  /** The document of a settings tree over the defaults; `None` when it cannot be written. */
  function Sparse(shape: Shape, defaults: Value, v: Value): Option<map<string, Node>> {
    if shape.Record? && Conforms(defaults, shape) && Conforms(v, shape) then
      match Differences(shape.fields, defaults.fields, v.fields)
      case None => None
      case Some(d) => Some(d[VERSION_KEY := NInt(1)])
    else None
  }

  /** What saving needs of the program: a settings tree whose fields are none of the document's own keys. */
  predicate Program(shape: Shape, defaults: Value) {
    && shape.Record? && Tree(shape) && Conforms(defaults, shape) && HasLiveEdit(shape)
    && VERSION_KEY !in shape.fields
    && ShapeAt(shape, [LIVE_EDIT, MAP_CONTEXT]).None?
  }

  lemma {:induction false} ShapeOneDown(shape: Shape, k: string, rest: SettingPath)
    requires shape.Record?
    ensures ShapeAt(shape, [k] + rest)
            == if k in shape.fields && shape.fields[k].user then ShapeAt(shape.fields[k].shape, rest) else None
  {
    assert ([k] + rest)[1..] == rest;
  }

  lemma {:induction false} LiveEditIsObject(shape: Shape, defaults: Value)
    requires Program(shape, defaults)
    ensures LIVE_EDIT in shape.fields && shape.fields[LIVE_EDIT].user && shape.fields[LIVE_EDIT].shape.Record?
    ensures var inner := shape.fields[LIVE_EDIT].shape.fields; MAP_CONTEXT in inner ==> !inner[MAP_CONTEXT].user
  {
    assert ITEMS_ENABLED == [LIVE_EDIT] + ["items", "enabled"];
    ShapeOneDown(shape, LIVE_EDIT, ["items", "enabled"]);
    var f := shape.fields[LIVE_EDIT];
    assert [LIVE_EDIT, MAP_CONTEXT] == [LIVE_EDIT] + [MAP_CONTEXT];
    ShapeOneDown(shape, LIVE_EDIT, [MAP_CONTEXT]);
    assert [MAP_CONTEXT] == [MAP_CONTEXT] + [];
    ShapeOneDown(f.shape, MAP_CONTEXT, []);
  }

  /** The written part of a present object holds settings of that object only. */
  lemma {:induction false} WrittenKeys(f: Field, before: Value, after: Value)
    requires f.shape.Record? && Conforms(before, f.shape) && Conforms(after, f.shape)
    ensures var w := Difference(f.shape, before, after);
            w.Whole? && w.node.NMap? ==> forall k ::
                k in w.node.entries ==> k in f.shape.fields && f.shape.fields[k].user
  {
    ObjectHasFields(before, f.shape);
    ObjectHasFields(after, f.shape);
  }

  /** The changed settings never include a retired or unknown key. */
  lemma {:induction false} NothingRetiredIsWritten(shape: Shape, defaults: Value, n: Value, d: map<string, Node>)
    requires Program(shape, defaults) && Conforms(n, shape)
    requires Differences(shape.fields, defaults.fields, n.fields) == Some(d)
    ensures WithoutRetired(d) == d && VERSION_KEY !in d
  {
    LiveEditIsObject(shape, defaults);
    WrittenKeys(shape.fields[LIVE_EDIT], defaults.fields[LIVE_EDIT], n.fields[LIVE_EDIT]);
    if LIVE_EDIT in d && d[LIVE_EDIT].NMap? {
      NothingToRetire(d);
    }
  }

  lemma {:induction false} NothingToRetire(d: map<string, Node>)
    requires LIVE_EDIT in d && d[LIVE_EDIT].NMap? && MAP_CONTEXT !in d[LIVE_EDIT].entries
    ensures WithoutRetired(d) == d
  {
    assert d[LIVE_EDIT].entries - {MAP_CONTEXT} == d[LIVE_EDIT].entries;
    assert d[LIVE_EDIT := d[LIVE_EDIT]] == d;
  }

  /** The version key is none of the retired keys' business. */
  lemma {:induction false} VersionIsSeparate(d: map<string, Node>)
    requires WithoutRetired(d) == d && VERSION_KEY !in d
    ensures WithoutRetired(d[VERSION_KEY := NInt(1)]) - {VERSION_KEY} == d
  {
    var doc := d[VERSION_KEY := NInt(1)];
    assert WithoutRetired(doc) == WithoutRetired(d)[VERSION_KEY := NInt(1)];
    assert doc - {VERSION_KEY} == d;
  }

  lemma {:induction false} SparseIff(shape: Shape, defaults: Value, v: Value)
    requires Program(shape, defaults) && Conforms(v, shape)
    ensures Sparse(shape, defaults, v).Some? <==> !ObjectAppears(shape, defaults, v)
  {
    FlagIsSetting(shape, v, STYLE_ENABLED);
    FailsWhenObjectAppears(shape, defaults, v);
    ObjectDifference(shape, defaults, v, shape.fields);
  }

  /** Saving any settings of the program and loading the file gives back their normalised form. */
  lemma {:induction false} SaveLoadRoundTrip(shape: Shape, defaults: Value, draft: Value, valid: Value -> bool,
                                             locate: Locate)
    requires Program(shape, defaults) && Conforms(draft, shape) && SameHidden(shape, defaults, draft)
    requires valid(Normalized(draft)) && !ObjectAppears(shape, defaults, Normalized(draft))
    ensures var doc := Sparse(shape, defaults, Normalized(draft));
            doc.Some? && Loaded(shape, defaults, doc.value, valid, locate) == Some(Normalized(draft))
  {
    var n := Normalized(draft);
    NormalizedConforms(shape, defaults, draft);
    SparseIff(shape, defaults, n);
    var d := Differences(shape.fields, defaults.fields, n.fields).value;
    DifferencesRestore(shape, defaults, n, locate);
    NothingRetiredIsWritten(shape, defaults, n, d);
    VersionIsSeparate(d);
    NormalizedIsFixed(shape, draft);
  }

  // ---------- a save that fails ----------

  /** In any program, an object with settings put where the defaults have none cannot be saved. */
  lemma {:induction false} AppearingObjectIsNotSaved(shape: Shape, defaults: Value, draft: Value, k: string)
    requires Program(shape, defaults) && Conforms(draft, shape)
    requires k in shape.fields && k != LIVE_EDIT && shape.fields[k].user
    requires defaults.fields[k] == VNull && HasSettings(shape.fields[k].shape, draft.fields[k])
    ensures ObjectAppears(shape, defaults, Normalized(draft))
    ensures Sparse(shape, defaults, Normalized(draft)) == None
  {
    var n := Normalized(draft);
    NormalizedConforms(shape, defaults, draft);
    NormalizedReads(shape, draft);
    assert Apart(STYLE_ENABLED, [k]) && Apart(WEATHER_ENABLED, [k]);
    assert SettingValue(n, [k]) == SettingValue(draft, [k]);
    AtTop(n, k);
    AtTop(draft, k);
    FlagIsSetting(shape, n, STYLE_ENABLED);
    assert Visible(shape.fields[k], n.fields[k]);
    ObjectAppearsInside(shape, defaults, n, shape.fields);
    SparseIff(shape, defaults, n);
  }

  // A program with the feature flags and one optional part, which its defaults leave out.

  function Setting(shape: Shape): Field { Field(shape, true, false, None) }

  const SWITCH := Record(map["enabled" := Setting(AnyBool)])
  const ITEMS := Record(map["enabled" := Setting(AnyBool), "item_types" := Setting(TupleAny(AnyString))])
  const FEATURES := Record(map["items" := Setting(ITEMS), "style" := Setting(SWITCH), "weather" := Setting(SWITCH)])
  const GARAGE := Record(map[LIVE_EDIT := Setting(FEATURES), PART := PartField(true)])

  const OFF := VRecord(map["enabled" := VBool(false)])
  const NO_ITEMS := VRecord(map["enabled" := VBool(false), "item_types" := VTuple([])])
  const NO_FEATURES := VRecord(map["items" := NO_ITEMS, "style" := OFF, "weather" := OFF])

  function Garage(part: Value): Value { VRecord(map[LIVE_EDIT := NO_FEATURES, PART := part]) }

  lemma {:induction false} PairConforms(j: string, f: Field, v: Value, k: string, g: Field, w: Value)
    requires j != k && Conforms(v, f.shape) && Conforms(w, g.shape)
    ensures Conforms(VRecord(map[j := v, k := w]), Record(map[j := f, k := g]))
  {
  }

  lemma {:induction false} TripleConforms(i: string, e: Field, u: Value, j: string, f: Field, v: Value, k: string,
                                          g: Field, w: Value)
    requires i != j && i != k && j != k && Conforms(u, e.shape) && Conforms(v, f.shape) && Conforms(w, g.shape)
    ensures Conforms(VRecord(map[i := u, j := v, k := w]), Record(map[i := e, j := f, k := g]))
  {
  }

  lemma {:induction false} PairTree(j: string, f: Field, k: string, g: Field)
    requires j != k && !f.retired && !g.retired && Tree(f.shape) && Tree(g.shape)
    ensures Tree(Record(map[j := f, k := g]))
  {
    assert RecordFields(Record(map[j := f, k := g])) == Some(map[j := f, k := g]);
  }

  lemma {:induction false} ItemsConform()
    ensures Conforms(NO_ITEMS, ITEMS)
  {
    assert Conforms(VTuple([]), TupleAny(AnyString));
    PairConforms("enabled", Setting(AnyBool), VBool(false), "item_types", Setting(TupleAny(AnyString)), VTuple([]));
  }

  lemma {:induction false} SwitchConforms()
    ensures Conforms(OFF, SWITCH)
  {
    LoneConforms("enabled", Setting(AnyBool), VBool(false));
  }

  lemma {:induction false} FeaturesConform()
    ensures Conforms(NO_FEATURES, FEATURES)
  {
    ItemsConform();
    SwitchConforms();
    TripleConforms("items", Setting(ITEMS), NO_ITEMS, "style", Setting(SWITCH), OFF, "weather", Setting(SWITCH), OFF);
  }

  lemma {:induction false} FeaturesAreTree()
    ensures Tree(FEATURES)
  {
    assert RecordFields(SWITCH) == Some(SWITCH.fields) && RecordFields(ITEMS) == Some(ITEMS.fields);
    assert Tree(SWITCH);
    assert Tree(ITEMS);
    assert RecordFields(FEATURES) == Some(FEATURES.fields);
  }

  lemma {:induction false} FeatureFlags()
    ensures ShapeAt(FEATURES, ["items", "enabled"]) == Some(AnyBool) && ShapeAt(FEATURES, ["items", "item_types"]).Some?
    ensures ShapeAt(FEATURES, ["style", "enabled"]) == Some(AnyBool)
            && ShapeAt(FEATURES, ["weather", "enabled"]) == Some(AnyBool)
    ensures ShapeAt(FEATURES, [MAP_CONTEXT]).None?
  {
    assert ["items", "enabled"][1..] == ["enabled"] && ["items", "item_types"][1..] == ["item_types"];
    assert ["style", "enabled"][1..] == ["enabled"] && ["weather", "enabled"][1..] == ["enabled"];
    assert ["enabled"][1..] == [] && ["item_types"][1..] == [];
    assert ShapeAt(SWITCH, ["enabled"]) == Some(AnyBool) && ShapeAt(ITEMS, ["enabled"]) == Some(AnyBool);
    assert ShapeAt(ITEMS, ["item_types"]).Some?;
  }

  lemma {:induction false} GarageConforms(part: Value)
    requires Conforms(part, PartOf(true))
    ensures Conforms(Garage(part), GARAGE)
  {
    FeaturesConform();
    PairConforms(LIVE_EDIT, Setting(FEATURES), NO_FEATURES, PART, PartField(true), part);
  }

  lemma {:induction false} GarageIsTree()
    ensures Tree(GARAGE)
  {
    FeaturesAreTree();
    PartFacts(true, 0);
    PairTree(LIVE_EDIT, Setting(FEATURES), PART, PartField(true));
  }

  lemma {:induction false} GarageHasFlags()
    ensures HasLiveEdit(GARAGE) && ShapeAt(GARAGE, [LIVE_EDIT, MAP_CONTEXT]).None?
  {
    FeatureFlags();
    assert ITEMS_ENABLED == [LIVE_EDIT] + ["items", "enabled"] && ITEM_TYPES == [LIVE_EDIT] + ["items", "item_types"];
    assert STYLE_ENABLED == [LIVE_EDIT] + ["style", "enabled"]
           && WEATHER_ENABLED == [LIVE_EDIT] + ["weather", "enabled"];
    assert [LIVE_EDIT, MAP_CONTEXT] == [LIVE_EDIT] + [MAP_CONTEXT];
    ShapeOneDown(GARAGE, LIVE_EDIT, ["items", "enabled"]);
    ShapeOneDown(GARAGE, LIVE_EDIT, ["items", "item_types"]);
    ShapeOneDown(GARAGE, LIVE_EDIT, ["style", "enabled"]);
    ShapeOneDown(GARAGE, LIVE_EDIT, ["weather", "enabled"]);
    ShapeOneDown(GARAGE, LIVE_EDIT, [MAP_CONTEXT]);
  }

  lemma {:induction false} GarageIsProgram(part: Value)
    requires Conforms(part, PartOf(true))
    ensures Program(GARAGE, Garage(part))
  {
    GarageConforms(part);
    GarageIsTree();
    GarageHasFlags();
  }

  /** For instance, a part put into this program's settings cannot be saved, although only settings have changed. */
  lemma {:induction false} FittedPartIsNotSaved(size: int)
    ensures Program(GARAGE, Garage(VNull)) && Conforms(Garage(Fitted(size)), GARAGE)
    ensures SameHidden(GARAGE, Garage(VNull), Garage(Fitted(size)))
    ensures Sparse(GARAGE, Garage(VNull), Normalized(Garage(Fitted(size)))) == None
  {
    PartFacts(true, size);
    GarageIsProgram(VNull);
    GarageIsProgram(Fitted(size));
    SameHiddenReflexive(FEATURES, NO_FEATURES);
    AppearingObjectIsNotSaved(GARAGE, Garage(VNull), Garage(Fitted(size)), PART);
  }

  lemma {:induction false} AtTop(root: Value, k: string)
    requires root.VRecord? && k in root.fields
    ensures SettingValue(root, [k]) == Some(root.fields[k])
  {
    assert [k][1..] == [];
    assert SettingValue(root.fields[k], []) == Some(root.fields[k]);
  }

  /** Bring a mapping to the desired one: delete what is not wanted, go into nested mappings, assign the rest. */
  method SyncMapping(target: map<string, Node>, desired: map<string, Node>) returns (r: map<string, Node>)
    ensures r == desired
    decreases NMap(desired)
  {
    r := target;
    var keys := target.Keys;
    while keys != {}
      invariant keys <= target.Keys
      invariant r == map key | key in target && (key in keys || key in desired) :: target[key]
      decreases keys
    {
      var key :| key in keys;
      if key !in desired {
        r := r - {key};
      }
      keys := keys - {key};
    }
    keys := desired.Keys;
    while keys != {}
      invariant keys <= desired.Keys && r.Keys <= desired.Keys
      invariant forall key :: key in desired && key !in keys ==> key in r && r[key] == desired[key]
      decreases keys
    {
      var key :| key in keys;
      var value := desired[key];
      if value.NMap? {
        var existing := if key in r && r[key].NMap? then r[key].entries else map[];
        var synced := SyncMapping(existing, value.entries);
        r := r[key := NMap(synced)];
      } else {
        r := r[key := value];
      }
      keys := keys - {key};
    }
  }

  datatype SaveError = InvalidSettings | NewObject

  class SettingsFile {
    const shape: Shape
    const defaults: Value
    const valid: Value -> bool
    const locate: Locate
    var settings: Value
    var document: map<string, Node>

    ghost predicate WellBuilt()
      reads this
    {
      Program(shape, defaults)
    }

    /**
     * Saving fails, changing nothing, exactly when the normalised draft is invalid or has an object where the defaults
     * have none; otherwise the document holds the changed settings and, when only settings have changed, loads back to
     * what is now held.
     */
    method Save(draft: Value) returns (r: Result<(), SaveError>)
      requires WellBuilt() && Conforms(draft, shape)
      modifies this
      ensures r.Ok? <==> valid(Normalized(draft)) && !ObjectAppears(shape, defaults, Normalized(draft))
      ensures r.Err? ==> settings == old(settings) && document == old(document)
      ensures r.Ok? ==> settings == Normalized(draft) && Sparse(shape, defaults, settings) == Some(document)
      ensures r.Ok? && SameHidden(shape, defaults, draft) ==>
                Loaded(shape, defaults, document, valid, locate) == Some(settings)
    {
      var n := Normalized(draft);
      NormalizedConforms(shape, defaults, draft);
      SparseIff(shape, defaults, n);
      if !valid(n) {
        return Err(InvalidSettings);
      }
      var desired := Sparse(shape, defaults, n);
      if desired.None? {
        return Err(NewObject);
      }
      if SameHidden(shape, defaults, draft) {
        SaveLoadRoundTrip(shape, defaults, draft, valid, locate);
      }
      document := SyncMapping(document, desired.value);
      settings := n;
      r := Ok(());
    }
  }
}
