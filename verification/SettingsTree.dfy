/** The typed settings tree: what a document node means, what a value is written as, and what is written of a change. */
module SettingsTree {
  import opened Prelude

  /** A parsed document value. */
  datatype Node = NNull | NBool(b: bool) | NInt(i: int) | NFloat(r: real) | NString(s: string)
                | NList(items: seq<Node>) | NMap(entries: map<string, Node>)

  /** A setting's value; a record is a configuration object. */
  datatype Value = VNull | VBool(b: bool) | VInt(i: int) | VFloat(r: real) | VString(s: string)
                 | VPath(path: string) | VDtype(name: string) | VEnum(raw: Node)
                 | VList(items: seq<Value>) | VTuple(items: seq<Value>)
                 | VMap(entries: map<string, Value>) | VRecord(fields: map<string, Value>)

  /** A declared type. */
  datatype Shape = AnyBool | AnyInt | AnyFloat | AnyString | AnyPath | AnyDtype(names: set<string>)
                 | OneOf(options: seq<Node>) | AnyEnum(raws: seq<Node>)
                 | Optional(inner: Shape)
                 | ListOf(item: Shape) | TupleOf(parts: seq<Shape>) | TupleAny(item: Shape) | MapOf(item: Shape)
                 | Record(fields: map<string, Field>)

  /** A field of a configuration class: hidden ones are not settings, retired ones are dropped from documents. */
  datatype Field = Field(shape: Shape, user: bool, retired: bool, default: Option<Value>)

  // ---------- typed values ----------

  predicate IsScalar(n: Node) { n.NBool? || n.NInt? || n.NFloat? || n.NString? }

  function ScalarValue(n: Node): Value
    requires IsScalar(n)
  {
    match n
    case NBool(b) => VBool(b)
    case NInt(i) => VInt(i)
    case NFloat(r) => VFloat(r)
    case NString(s) => VString(s)
  }

  predicate Absolute(path: string) { path != "" && path[0] == '/' }

  const TORCH: string := "torch."

  function WithoutPrefix(s: string): string {
    if TORCH <= s then s[|TORCH|..] else s
  }

  predicate Conforms(v: Value, shape: Shape)
    decreases shape
  {
    match shape
    case AnyBool => v.VBool?
    case AnyInt => v.VInt?
    case AnyFloat => v.VFloat?
    case AnyString => v.VString?
    case AnyPath => v.VPath? && Absolute(v.path)
    case AnyDtype(names) => v.VDtype? && v.name in names && !(TORCH <= v.name)
    case OneOf(options) => exists k :: 0 <= k < |options| && IsScalar(options[k]) && v == ScalarValue(options[k])
    case AnyEnum(raws) => v.VEnum? && v.raw in raws && IsScalar(v.raw)
    case Optional(inner) => v.VNull? || (!inner.Optional? && Conforms(v, inner))
    case ListOf(item) => v.VList? && forall i :: 0 <= i < |v.items| ==> Conforms(v.items[i], item)
    case TupleAny(item) => v.VTuple? && forall i :: 0 <= i < |v.items| ==> Conforms(v.items[i], item)
    case TupleOf(parts) =>
      v.VTuple? && |v.items| == |parts| && forall i :: 0 <= i < |parts| ==> Conforms(v.items[i], parts[i])
    case MapOf(item) => v.VMap? && forall k :: k in v.entries ==> Conforms(v.entries[k], item)
    case Record(fields) =>
      v.VRecord? && v.fields.Keys == fields.Keys && forall k :: k in fields ==> Conforms(v.fields[k], fields[k].shape)
  }

  /** The fields of a setting that is a configuration object, possibly an absent one. */
  function RecordFields(shape: Shape): Option<map<string, Field>> {
    match shape
    case Record(fields) => Some(fields)
    case Optional(inner) => if inner.Record? then Some(inner.fields) else None
    case _ => None
  }

  /** Whether a field is a setting now: a configuration object is one only while it has settings of its own. */
  predicate Visible(f: Field, v: Value)
    decreases f.shape, 1
  {
    f.user && (v.VRecord? ==> HasSettings(f.shape, v))
  }

  predicate HasSettings(shape: Shape, v: Value)
    decreases shape, 0
  {
    v.VRecord? && RecordFields(shape).Some?
    && exists k :: k in RecordFields(shape).value && k in v.fields && Visible(RecordFields(shape).value[k], v.fields[k])
  }

  /**
   * The whole value can be written and read: no field anywhere inside is hidden, no object is without fields, and class
   * defaults are of their declared types.
   */
  predicate Plain(shape: Shape)
    decreases shape
  {
    match shape
    case Optional(inner) => Plain(inner)
    case ListOf(item) => Plain(item)
    case TupleAny(item) => Plain(item)
    case TupleOf(parts) => forall i :: 0 <= i < |parts| ==> Plain(parts[i])
    case MapOf(item) => Plain(item)
    case Record(fields) =>
      && fields != map[]
      && forall k :: k in fields ==>
           && fields[k].user && !fields[k].retired && Plain(fields[k].shape)
           && (fields[k].default.Some? ==> Conforms(fields[k].default.value, fields[k].shape))
    case _ => true
  }

  // ---------- writing ----------

  function Serialized(v: Value): Node
    decreases v
  {
    match v
    case VNull => NNull
    case VBool(b) => NBool(b)
    case VInt(i) => NInt(i)
    case VFloat(r) => NFloat(r)
    case VString(s) => NString(s)
    case VPath(path) => NString(path)
    case VDtype(name) => NString(WithoutPrefix(name))
    case VEnum(raw) => raw
    case VList(items) => NList(seq(|items|, i requires 0 <= i < |items| => Serialized(items[i])))
    case VTuple(items) => NList(seq(|items|, i requires 0 <= i < |items| => Serialized(items[i])))
    case VMap(entries) => NMap(map k | k in entries :: Serialized(entries[k]))
    case VRecord(fields) => NMap(map k | k in fields :: Serialized(fields[k]))
  }

  // ---------- reading ----------

  /** A document's relative path is taken from the document's directory. */
  type Locate = string -> string

  function At(items: seq<Value>, i: nat): Value { if i < |items| then items[i] else VNull }

  /** The elements of a sequence setting, if it is one. */
  function Elements(current: Value): seq<Value> {
    if current.VList? || current.VTuple? then current.items else []
  }

  function Entry(current: Value, k: string): Value {
    if current.VMap? && k in current.entries then current.entries[k] else VNull
  }

  /** What a field starts from: the present object's value, or the class default for a new object. */
  function Present(current: Value, k: string, f: Field): Option<Value> {
    if current.VRecord? then (if k in current.fields then Some(current.fields[k]) else None) else f.default
  }

  /** Whether a document may set a field: one visible in the present object, or any user's field of a new object. */
  predicate Settable(current: Value, k: string, f: Field) {
    if current.VRecord? then k in current.fields && Visible(f, current.fields[k]) else f.user
  }

  function OrNull(v: Option<Value>): Value { if v.Some? then v.value else VNull }

  /** The value a document node stands for where `current` was; `None` is a settings error. */
  function Converted(n: Node, shape: Shape, current: Value, locate: Locate): Option<Value>
    decreases shape, 0
  {
    match shape
    case Optional(inner) => if n == NNull then Some(VNull) else Converted(n, inner, current, locate)
    case AnyBool => if n.NBool? then Some(VBool(n.b)) else None
    case AnyInt => if n.NInt? then Some(VInt(n.i)) else None
    case AnyFloat => if n.NFloat? then Some(VFloat(n.r)) else if n.NInt? then Some(VFloat(n.i as real)) else None
    case AnyString => if n.NString? then Some(VString(n.s)) else None
    case AnyPath => if !n.NString? then None else Some(VPath(if Absolute(n.s) then n.s else locate(n.s)))
    case AnyDtype(names) => if n.NString? && WithoutPrefix(n.s) in names then Some(VDtype(WithoutPrefix(n.s))) else None
    case OneOf(options) => if IsScalar(n) && n in options then Some(ScalarValue(n)) else None
    case AnyEnum(raws) => if IsScalar(n) && n in raws then Some(VEnum(n)) else None
    case ListOf(item) =>
      if !n.NList? then None
      else if exists i ::
          0 <= i < |n.items| && Converted(n.items[i], item, At(Elements(current), i), locate).None?
      then None
      else
        Some(VList(seq(|n.items|, i requires 0 <= i < |n.items| =>
          Converted(n.items[i], item, At(Elements(current), i), locate).value)))
    case TupleAny(item) =>
      if !n.NList? then None
      else if exists i ::
          0 <= i < |n.items| && Converted(n.items[i], item, At(Elements(current), i), locate).None?
      then None
      else
        Some(VTuple(seq(|n.items|, i requires 0 <= i < |n.items| =>
          Converted(n.items[i], item, At(Elements(current), i), locate).value)))
    case TupleOf(parts) =>
      if !n.NList? || |n.items| != |parts| then None
      else if exists i ::
          0 <= i < |parts| && Converted(n.items[i], parts[i], At(Elements(current), i), locate).None?
      then None
      else
        Some(VTuple(seq(|parts|, i requires 0 <= i < |parts| =>
          Converted(n.items[i], parts[i], At(Elements(current), i), locate).value)))
    case MapOf(item) =>
      if !n.NMap? then None
      else if exists k :: k in n.entries && Converted(n.entries[k], item, Entry(current, k), locate).None? then None
      else Some(VMap(map k | k in n.entries :: Converted(n.entries[k], item, Entry(current, k), locate).value))
    case Record(fields) =>
      if !n.NMap? then None
      else if exists k ::
          k in n.entries && !(k in fields && (fields[k].retired || Settable(current, k, fields[k])))
      then None
      else if exists k :: k in fields && Overlay(n.entries, k, fields[k], current, locate).None? then None
      else Some(VRecord(map k | k in fields :: Overlay(n.entries, k, fields[k], current, locate).value))
  }

  /** One field of an object read over another: the document's value, or what was there. */
  function Overlay(entries: map<string, Node>, k: string, f: Field, current: Value, locate: Locate): Option<Value>
    decreases f.shape, 1
  {
    if k in entries && f.user && !f.retired then Converted(entries[k], f.shape, OrNull(Present(current, k, f)), locate)
    else Present(current, k, f)
  }

  // ---------- what is written is read back ----------

  lemma {:induction false} NeverNull(v: Value, shape: Shape)
    requires Conforms(v, shape) && v != VNull
    ensures Serialized(v) != NNull
  {
    if shape.Optional? {
      NeverNull(v, shape.inner);
    }
  }

  /** An object is read field by field. */
  lemma {:induction false} ReadFieldByField(entries: map<string, Node>, fields: map<string, Field>, current: Value,
                                            locate: Locate, v: Value)
    requires v.VRecord? && v.fields.Keys == fields.Keys
    requires forall k :: k in entries ==> k in fields && Settable(current, k, fields[k])
    requires forall k :: k in fields ==> Overlay(entries, k, fields[k], current, locate) == Some(v.fields[k])
    ensures Converted(NMap(entries), Record(fields), current, locate) == Some(v)
  {
    var r := Converted(NMap(entries), Record(fields), current, locate);
    assert r.Some? && r.value.VRecord?;
    assert r.value.fields == v.fields;
  }

  /** What a value may be read over: a value of the same type, or nothing. */
  predicate Familiar(current: Value, shape: Shape) { current == VNull || Conforms(current, shape) }

  lemma {:induction false} PlainIsVisible(shape: Shape, v: Value)
    requires Plain(shape) && Conforms(v, shape) && v.VRecord?
    ensures HasSettings(shape, v)
    decreases shape
  {
    var fields := RecordFields(shape).value;
    var k :| k in fields;
    if v.fields[k].VRecord? {
      PlainIsVisible(fields[k].shape, v.fields[k]);
    }
    assert Visible(fields[k], v.fields[k]);
  }

  /** Every field of a plain object can be set over a familiar value, and starts from one. */
  lemma {:induction false} PlainIsSettable(fields: map<string, Field>, current: Value, k: string)
    requires Plain(Record(fields)) && Familiar(current, Record(fields)) && k in fields
    ensures Settable(current, k, fields[k]) && Familiar(OrNull(Present(current, k, fields[k])), fields[k].shape)
  {
    if current.VRecord? && current.fields[k].VRecord? {
      PlainIsVisible(fields[k].shape, current.fields[k]);
    }
  }

  lemma {:induction false} RecordReadsBack(v: Value, fields: map<string, Field>, current: Value, locate: Locate)
    requires v.VRecord? && v.fields.Keys == fields.Keys
    requires forall k :: k in fields ==> fields[k].user && !fields[k].retired
    requires forall k :: k in fields ==> Settable(current, k, fields[k])
    requires forall k :: k in fields ==>
               Converted(Serialized(v.fields[k]), fields[k].shape, OrNull(Present(current, k, fields[k])), locate)
                 == Some(v.fields[k])
    ensures Converted(Serialized(v), Record(fields), current, locate) == Some(v)
  {
    var entries := map k | k in v.fields :: Serialized(v.fields[k]);
    assert Serialized(v) == NMap(entries);
    forall k | k in fields ensures Overlay(entries, k, fields[k], current, locate) == Some(v.fields[k]) {
      assert entries[k] == Serialized(v.fields[k]);
    }
    ReadFieldByField(entries, fields, current, locate, v);
  }

  lemma {:induction false} ReadOneByOne(nodes: seq<Node>, item: Shape, current: Value, locate: Locate,
                                        items: seq<Value>)
    requires |nodes| == |items|
    requires forall i ::
               0 <= i < |items| ==> Converted(nodes[i], item, At(Elements(current), i), locate) == Some(items[i])
    ensures Converted(NList(nodes), ListOf(item), current, locate) == Some(VList(items))
    ensures Converted(NList(nodes), TupleAny(item), current, locate) == Some(VTuple(items))
  {
    var l := Converted(NList(nodes), ListOf(item), current, locate);
    assert l.Some? && l.value.items == items;
    var t := Converted(NList(nodes), TupleAny(item), current, locate);
    assert t.Some? && t.value.items == items;
  }

  lemma {:induction false} ListReadsBack(v: Value, shape: Shape, item: Shape, current: Value, locate: Locate)
    requires (v.VList? && shape == ListOf(item)) || (v.VTuple? && shape == TupleAny(item))
    requires forall i :: 0 <= i < |v.items| ==>
               Converted(Serialized(v.items[i]), item, At(Elements(current), i), locate) == Some(v.items[i])
    ensures Converted(Serialized(v), shape, current, locate) == Some(v)
  {
    var nodes := seq(|v.items|, i requires 0 <= i < |v.items| => Serialized(v.items[i]));
    assert Serialized(v) == NList(nodes);
    ReadOneByOne(nodes, item, current, locate, v.items);
  }

  lemma {:induction false} PartsReadBack(v: Value, parts: seq<Shape>, current: Value, locate: Locate)
    requires v.VTuple? && |v.items| == |parts|
    requires forall i :: 0 <= i < |parts| ==>
               Converted(Serialized(v.items[i]), parts[i], At(Elements(current), i), locate) == Some(v.items[i])
    ensures Converted(Serialized(v), TupleOf(parts), current, locate) == Some(v)
  {
    var n := Serialized(v);
    assert |n.items| == |v.items| && forall i :: 0 <= i < |n.items| ==> n.items[i] == Serialized(v.items[i]);
    assert Converted(n, TupleOf(parts), current, locate).value.items == v.items;
  }

  lemma {:induction false} ReadKeyByKey(entries: map<string, Node>, item: Shape, current: Value, locate: Locate,
                                        v: Value)
    requires v.VMap? && v.entries.Keys == entries.Keys
    requires forall k :: k in entries ==> Converted(entries[k], item, Entry(current, k), locate) == Some(v.entries[k])
    ensures Converted(NMap(entries), MapOf(item), current, locate) == Some(v)
  {
    MapIsRead(entries, item, current, locate);
    var read := Converted(NMap(entries), MapOf(item), current, locate).value.entries;
    assert read == v.entries;
  }

  lemma {:induction false} MapIsRead(entries: map<string, Node>, item: Shape, current: Value, locate: Locate)
    requires forall k :: k in entries ==> Converted(entries[k], item, Entry(current, k), locate).Some?
    ensures var r := Converted(NMap(entries), MapOf(item), current, locate);
            && r.Some? && r.value.VMap? && r.value.entries.Keys == entries.Keys
            && forall k :: k in entries ==>
                 Some(r.value.entries[k]) == Converted(entries[k], item, Entry(current, k), locate)
  {
  }

  lemma {:induction false} MapReadsBack(v: Value, item: Shape, current: Value, locate: Locate)
    requires v.VMap?
    requires forall k :: k in v.entries ==>
               Converted(Serialized(v.entries[k]), item, Entry(current, k), locate) == Some(v.entries[k])
    ensures Converted(Serialized(v), MapOf(item), current, locate) == Some(v)
  {
    var entries := map k | k in v.entries :: Serialized(v.entries[k]);
    assert Serialized(v) == NMap(entries);
    ReadKeyByKey(entries, item, current, locate, v);
  }

  lemma {:induction false} ElementFamiliar(current: Value, item: Shape, i: nat)
    requires Familiar(current, ListOf(item)) || Familiar(current, TupleAny(item))
    ensures Familiar(At(Elements(current), i), item)
  {
  }

  lemma {:induction false} PartFamiliar(current: Value, parts: seq<Shape>, i: nat)
    requires Familiar(current, TupleOf(parts)) && i < |parts|
    ensures Familiar(At(Elements(current), i), parts[i])
  {
  }

  lemma {:induction false} EntryFamiliar(current: Value, item: Shape, k: string)
    requires Familiar(current, MapOf(item))
    ensures Familiar(Entry(current, k), item)
  {
  }

  /** Any well-typed value without hidden parts is read back from what was written, whatever value was there before. */
  lemma {:induction false} ReadsBack(v: Value, shape: Shape, current: Value, locate: Locate)
    requires Conforms(v, shape) && Plain(shape) && Familiar(current, shape)
    ensures Converted(Serialized(v), shape, current, locate) == Some(v)
    decreases shape, 1
  {
    match shape
    case Optional(inner) => OptionalReadsBack(v, inner, current, locate);
    case ListOf(item) => ItemsReadBack(v, shape, item, current, locate);
    case TupleAny(item) => ItemsReadBack(v, shape, item, current, locate);
    case TupleOf(parts) => EachPartReadsBack(v, parts, current, locate);
    case MapOf(item) => EntriesReadBack(v, item, current, locate);
    case Record(fields) => FieldsReadBack(v, fields, current, locate);
    case _ => ScalarReadsBack(v, shape, current, locate);
  }

  lemma {:induction false} OptionalReadsBack(v: Value, inner: Shape, current: Value, locate: Locate)
    requires Conforms(v, Optional(inner)) && Plain(inner) && Familiar(current, Optional(inner))
    ensures Converted(Serialized(v), Optional(inner), current, locate) == Some(v)
    decreases Optional(inner), 0
  {
    if v != VNull {
      NeverNull(v, inner);
      assert Familiar(current, inner);
      ReadsBack(v, inner, current, locate);
      OptionalConverts(Serialized(v), inner, current, locate);
    }
  }

  lemma {:induction false} OptionalConverts(n: Node, inner: Shape, current: Value, locate: Locate)
    requires n != NNull
    ensures Converted(n, Optional(inner), current, locate) == Converted(n, inner, current, locate)
  {
  }

  lemma {:induction false} EachPartReadsBack(v: Value, parts: seq<Shape>, current: Value, locate: Locate)
    requires Conforms(v, TupleOf(parts)) && Plain(TupleOf(parts)) && Familiar(current, TupleOf(parts))
    ensures Converted(Serialized(v), TupleOf(parts), current, locate) == Some(v)
    decreases TupleOf(parts), 0
  {
    forall i | 0 <= i < |parts|
      ensures Converted(Serialized(v.items[i]), parts[i], At(Elements(current), i), locate) == Some(v.items[i])
    {
      PartFamiliar(current, parts, i);
      ReadsBack(v.items[i], parts[i], At(Elements(current), i), locate);
    }
    PartsReadBack(v, parts, current, locate);
  }

  lemma {:induction false} EntriesReadBack(v: Value, item: Shape, current: Value, locate: Locate)
    requires Conforms(v, MapOf(item)) && Plain(item) && Familiar(current, MapOf(item))
    ensures Converted(Serialized(v), MapOf(item), current, locate) == Some(v)
    decreases MapOf(item), 0
  {
    forall k | k in v.entries
      ensures Converted(Serialized(v.entries[k]), item, Entry(current, k), locate) == Some(v.entries[k])
    {
      EntryFamiliar(current, item, k);
      ReadsBack(v.entries[k], item, Entry(current, k), locate);
    }
    MapReadsBack(v, item, current, locate);
  }

  lemma {:induction false} ItemsReadBack(v: Value, shape: Shape, item: Shape, current: Value, locate: Locate)
    requires Conforms(v, shape) && Plain(item) && Familiar(current, shape)
             && (shape == ListOf(item) || shape == TupleAny(item))
    ensures Converted(Serialized(v), shape, current, locate) == Some(v)
    decreases shape, 0
  {
    forall i | 0 <= i < |v.items|
      ensures Converted(Serialized(v.items[i]), item, At(Elements(current), i), locate) == Some(v.items[i])
    {
      ElementFamiliar(current, item, i);
      ReadsBack(v.items[i], item, At(Elements(current), i), locate);
    }
    ListReadsBack(v, shape, item, current, locate);
  }

  lemma {:induction false} FieldsReadBack(v: Value, fields: map<string, Field>, current: Value, locate: Locate)
    requires Conforms(v, Record(fields)) && Plain(Record(fields)) && Familiar(current, Record(fields))
    ensures Converted(Serialized(v), Record(fields), current, locate) == Some(v)
    decreases Record(fields), 0
  {
    forall k | k in fields
      ensures Settable(current, k, fields[k])
      ensures Converted(Serialized(v.fields[k]), fields[k].shape, OrNull(Present(current, k, fields[k])), locate)
              == Some(v.fields[k])
    {
      PlainIsSettable(fields, current, k);
      ReadsBack(v.fields[k], fields[k].shape, OrNull(Present(current, k, fields[k])), locate);
    }
    RecordReadsBack(v, fields, current, locate);
  }

  lemma {:induction false} ScalarReadsBack(v: Value, shape: Shape, current: Value, locate: Locate)
    requires Conforms(v, shape)
    requires !shape.Optional? && !shape.ListOf? && !shape.TupleAny? && !shape.TupleOf? && !shape.MapOf?
             && !shape.Record?
    ensures Converted(Serialized(v), shape, current, locate) == Some(v)
  {
    if shape.OneOf? {
      var k :| 0 <= k < |shape.options| && IsScalar(shape.options[k]) && v == ScalarValue(shape.options[k]);
      assert Serialized(v) == shape.options[k];
    }
  }

  // ---------- the differences ----------

  lemma {:induction false} ObjectHasFields(v: Value, shape: Shape)
    requires Conforms(v, shape) && v.VRecord?
    ensures RecordFields(shape).Some?
    ensures var fields := RecordFields(shape).value;
            v.fields.Keys == fields.Keys && forall k :: k in fields ==> Conforms(v.fields[k], fields[k].shape)
  {
    if shape.Optional? {
      assert Conforms(v, shape.inner);
    }
  }

  /** A tree of configuration objects whose other settings can be written whole. */
  predicate Tree(shape: Shape)
    decreases shape
  {
    match RecordFields(shape)
    case Some(fields) => forall k :: k in fields && fields[k].user ==> !fields[k].retired && Tree(fields[k].shape)
    case None => Plain(shape)
  }

  /** What is written of one setting: nothing, a node, or failure on an object where there was none. */
  datatype Written = Nothing | Whole(node: Node) | Failure

  function Difference(shape: Shape, before: Value, after: Value): Written
    requires Conforms(before, shape) && Conforms(after, shape)
    decreases shape, 1
  {
    if after.VRecord? then
      if !HasSettings(shape, after) then Nothing
      else if !before.VRecord? then Failure
      else
        ObjectHasFields(before, shape);
        ObjectHasFields(after, shape);
        var fields := RecordFields(shape).value;
        match Differences(fields, before.fields, after.fields)
        case None => Failure
        case Some(d) => if d == map[] then Nothing else Whole(NMap(d))
    else if after == before then Nothing
    else Whole(Serialized(after))
  }

  /** The sparse document of a configuration object: its changed settings only. */
  function Differences(fields: map<string, Field>, base: map<string, Value>,
                       current: map<string, Value>): Option<map<string, Node>>
    requires base.Keys == fields.Keys && current.Keys == fields.Keys
    requires forall k :: k in fields ==> Conforms(base[k], fields[k].shape) && Conforms(current[k], fields[k].shape)
    decreases Record(fields), 0
  {
    if exists k ::
        k in fields && Visible(fields[k], current[k]) && Difference(fields[k].shape, base[k], current[k]).Failure?
    then None
    else
      Some(map k | k in fields && Visible(fields[k], current[k])
                   && Difference(fields[k].shape, base[k], current[k]).Whole? ::
             Difference(fields[k].shape, base[k], current[k]).node)
  }

  /** Two objects differ in settings only: a field that is no setting in one of them is the same in both. */
  predicate SameHidden(shape: Shape, before: Value, after: Value)
    decreases shape
  {
    RecordFields(shape).Some? && before.VRecord? && after.VRecord? ==>
      forall k :: k in RecordFields(shape).value && k in before.fields && k in after.fields ==>
        var f := RecordFields(shape).value[k];
        if Visible(f, before.fields[k]) && Visible(f, after.fields[k]) then
          SameHidden(f.shape, before.fields[k], after.fields[k])
        else before.fields[k] == after.fields[k]
  }

  // ---------- the differences restore the tree ----------

  /** An unchanged setting is not written. */
  lemma {:induction false} UnchangedIsNotWritten(shape: Shape, v: Value)
    requires Conforms(v, shape)
    ensures Difference(shape, v, v) == Nothing
    decreases shape
  {
    if v.VRecord? {
      ObjectHasFields(v, shape);
      var fields := RecordFields(shape).value;
      forall k | k in fields ensures Difference(fields[k].shape, v.fields[k], v.fields[k]) == Nothing {
        UnchangedIsNotWritten(fields[k].shape, v.fields[k]);
      }
      assert Differences(fields, v.fields, v.fields) == Some(map[]);
    }
  }

  /** Reading an empty mapping over an object leaves it as it was. */
  lemma {:induction false} NothingOverlaid(fields: map<string, Field>, v: Value, locate: Locate)
    requires v.VRecord? && v.fields.Keys == fields.Keys
    ensures Converted(NMap(map[]), Record(fields), v, locate) == Some(v)
  {
    ReadFieldByField(map[], fields, v, locate, v);
  }

  /** An object node is read the same whether or not the object may be absent. */
  lemma {:induction false} ObjectIsRead(shape: Shape, entries: map<string, Node>, current: Value, locate: Locate)
    requires RecordFields(shape).Some?
    ensures Converted(NMap(entries), shape, current, locate)
            == Converted(NMap(entries), Record(RecordFields(shape).value), current, locate)
  {
  }

  /** An object differs from itself in no field at all. */
  lemma {:induction false} SameHiddenReflexive(shape: Shape, v: Value)
    ensures SameHidden(shape, v, v)
    decreases shape
  {
    if RecordFields(shape).Some? && v.VRecord? {
      var fields := RecordFields(shape).value;
      forall k | k in fields && k in v.fields ensures SameHidden(fields[k].shape, v.fields[k], v.fields[k]) {
        SameHiddenReflexive(fields[k].shape, v.fields[k]);
      }
    }
  }

  /** A setting, on both sides one. */
  predicate BothSeen(shape: Shape, before: Value, after: Value) {
    (before.VRecord? ==> HasSettings(shape, before)) && (after.VRecord? ==> HasSettings(shape, after))
  }

  /** One setting over its old value: what is read back of what is written, or the old value if nothing is. */
  function Reread(shape: Shape, before: Value, after: Value, locate: Locate): Option<Value>
    requires Conforms(before, shape) && Conforms(after, shape)
  {
    var w := Difference(shape, before, after);
    if w.Whole? then Converted(w.node, shape, before, locate) else Some(before)
  }

  /**
   * A setting is restored exactly when only settings have changed in it, and nothing is written of an unchanged one.
   */
  lemma {:induction false} SettingRestored(shape: Shape, before: Value, after: Value, locate: Locate)
    requires Conforms(before, shape) && Conforms(after, shape) && Tree(shape) && BothSeen(shape, before, after)
    requires !Difference(shape, before, after).Failure?
    ensures Reread(shape, before, after, locate) == Some(after) <==> SameHidden(shape, before, after)
    ensures before == after ==> Difference(shape, before, after).Nothing?
    decreases shape, 1
  {
    if before == after {
      UnchangedIsNotWritten(shape, before);
      SameHiddenReflexive(shape, before);
    } else if after.VRecord? {
      ObjectHasFields(before, shape);
      ObjectHasFields(after, shape);
      var fields := RecordFields(shape).value;
      var d := Differences(fields, before.fields, after.fields).value;
      DifferencesRestore(shape, before, after, locate);
      ObjectIsRead(shape, d, before, locate);
      NothingOverlaid(fields, before, locate);
    } else {
      SimpleReadsBack(shape, before, after, locate);
    }
  }

  lemma {:induction false} SimpleReadsBack(shape: Shape, before: Value, after: Value, locate: Locate)
    requires Conforms(before, shape) && Conforms(after, shape) && Tree(shape) && !after.VRecord?
    ensures Converted(Serialized(after), shape, before, locate) == Some(after)
  {
    if RecordFields(shape).Some? {
      assert after == VNull;
    } else {
      ReadsBack(after, shape, before, locate);
    }
  }

  /** One field is as it should be after reading exactly when only settings have changed in it. */
  lemma {:induction false} FieldRestored(fields: map<string, Field>, before: Value, after: Value, d: map<string, Node>,
                                         k: string, locate: Locate)
    requires before.VRecord? && after.VRecord? && before.fields.Keys == fields.Keys && after.fields.Keys == fields.Keys
    requires forall k ::
               k in fields ==> Conforms(before.fields[k], fields[k].shape) && Conforms(after.fields[k], fields[k].shape)
    requires Differences(fields, before.fields, after.fields) == Some(d) && k in fields
    requires fields[k].user ==> !fields[k].retired && Tree(fields[k].shape)
    ensures var f, b, a := fields[k], before.fields[k], after.fields[k];
            (k in d ==> Settable(before, k, f)) && Overlay(d, k, f, before, locate) == Some(a)
            <==> if Visible(f, b) && Visible(f, a) then SameHidden(f.shape, b, a) else b == a
    decreases fields[k].shape, 2
  {
    var f, b, a := fields[k], before.fields[k], after.fields[k];
    if Visible(f, a) {
      if Visible(f, b) {
        SettingRestored(f.shape, b, a, locate);
      } else if b.VRecord? && a.VRecord? && k !in d {
        assert Overlay(d, k, f, before, locate) == Some(b);
      }
    }
  }

  /**
   * Reading the written differences over the old object gives the new one exactly when only settings have changed: no
   * field that is not a setting in one of them differs.
   */
  lemma {:induction false} DifferencesRestore(shape: Shape, before: Value, after: Value, locate: Locate)
    requires Conforms(before, shape) && Conforms(after, shape) && before.VRecord? && after.VRecord?
    requires Tree(shape) && RecordFields(shape).Some?
    requires var fields := RecordFields(shape).value;
             && before.fields.Keys == fields.Keys && after.fields.Keys == fields.Keys
             && (forall k ::
                 k in fields ==>
                   Conforms(before.fields[k], fields[k].shape) && Conforms(after.fields[k], fields[k].shape))
             && Differences(fields, before.fields, after.fields).Some?
    ensures var fields := RecordFields(shape).value;
            var d := Differences(fields, before.fields, after.fields).value;
            Converted(NMap(d), Record(fields), before, locate) == Some(after) <==> SameHidden(shape, before, after)
    decreases shape, 0
  {
    var fields := RecordFields(shape).value;
    var d := Differences(fields, before.fields, after.fields).value;
    forall k | k in fields
      ensures var f, b, a := fields[k], before.fields[k], after.fields[k];
              (k in d ==> Settable(before, k, f)) && Overlay(d, k, f, before, locate) == Some(a)
              <==> if Visible(f, b) && Visible(f, a) then SameHidden(f.shape, b, a) else b == a
    {
      FieldRestored(fields, before, after, d, k, locate);
    }
    ReadExactly(d, fields, before, locate, after);
  }

  /** An object is read as `v` exactly when each field is, and no other key occurs. */
  lemma {:induction false} ReadExactly(entries: map<string, Node>, fields: map<string, Field>, current: Value,
                                       locate: Locate, v: Value)
    requires v.VRecord? && v.fields.Keys == fields.Keys && entries.Keys <= fields.Keys
    requires forall k :: k in entries ==> fields[k].user && !fields[k].retired
    ensures Converted(NMap(entries), Record(fields), current, locate) == Some(v)
            <==> forall k :: k in fields ==>
                   (k in entries ==> Settable(current, k, fields[k]))
                     && Overlay(entries, k, fields[k], current, locate) == Some(v.fields[k])
  {
    if forall k :: k in fields ==>
         (k in entries ==> Settable(current, k, fields[k]))
           && Overlay(entries, k, fields[k], current, locate) == Some(v.fields[k])
    {
      ReadFieldByField(entries, fields, current, locate, v);
    }
  }

  /** Somewhere an object with settings has appeared where the defaults have none. */
  predicate ObjectAppears(shape: Shape, before: Value, after: Value)
    decreases shape
  {
    HasSettings(shape, after)
    && (!before.VRecord?
        || exists k :: k in RecordFields(shape).value && k in before.fields && k in after.fields
             && Visible(RecordFields(shape).value[k], after.fields[k])
             && ObjectAppears(RecordFields(shape).value[k].shape, before.fields[k], after.fields[k]))
  }

  lemma {:induction false} DifferencesFail(fields: map<string, Field>, base: map<string, Value>,
                                           current: map<string, Value>)
    requires base.Keys == fields.Keys && current.Keys == fields.Keys
    requires forall k :: k in fields ==> Conforms(base[k], fields[k].shape) && Conforms(current[k], fields[k].shape)
    ensures Differences(fields, base, current).None?
            <==> exists k ::
                   k in fields && Visible(fields[k], current[k])
                   && ObjectAppears(fields[k].shape, base[k], current[k])
    decreases Record(fields), 0
  {
    forall k | k in fields
      ensures Difference(fields[k].shape, base[k], current[k]).Failure?
              <==> ObjectAppears(fields[k].shape, base[k], current[k])
    {
      FailsWhenObjectAppears(fields[k].shape, base[k], current[k]);
    }
  }

  lemma {:induction false} ObjectDifference(shape: Shape, before: Value, after: Value, fields: map<string, Field>)
    requires Conforms(before, shape) && Conforms(after, shape) && HasSettings(shape, after) && before.VRecord?
    requires RecordFields(shape) == Some(fields) && before.fields.Keys == fields.Keys
             && after.fields.Keys == fields.Keys
    requires forall k ::
               k in fields ==> Conforms(before.fields[k], fields[k].shape) && Conforms(after.fields[k], fields[k].shape)
    ensures Difference(shape, before, after).Failure? <==> Differences(fields, before.fields, after.fields).None?
  {
  }

  lemma {:induction false} ObjectAppearsInside(shape: Shape, before: Value, after: Value, fields: map<string, Field>)
    requires HasSettings(shape, after) && before.VRecord?
    requires RecordFields(shape) == Some(fields) && before.fields.Keys == fields.Keys
             && after.fields.Keys == fields.Keys
    ensures ObjectAppears(shape, before, after)
            <==> exists k ::
                   k in fields && Visible(fields[k], after.fields[k])
                   && ObjectAppears(fields[k].shape, before.fields[k], after.fields[k])
  {
  }

  /** Writing fails exactly when an object with settings has appeared where the defaults have none. */
  lemma {:induction false} FailsWhenObjectAppears(shape: Shape, before: Value, after: Value)
    requires Conforms(before, shape) && Conforms(after, shape)
    ensures Difference(shape, before, after).Failure? <==> ObjectAppears(shape, before, after)
    decreases shape, 1
  {
    if HasSettings(shape, after) && before.VRecord? {
      ObjectHasFields(after, shape);
      ObjectHasFields(before, shape);
      var fields := RecordFields(shape).value;
      DifferencesFail(fields, before.fields, after.fields);
      ObjectDifference(shape, before, after, fields);
      ObjectAppearsInside(shape, before, after, fields);
    }
  }

  // ---------- what is not restored ----------

  // Objects with a single field suffice.

  lemma {:induction false} LoneConforms(k: string, f: Field, v: Value)
    requires Conforms(v, f.shape)
    ensures Conforms(VRecord(map[k := v]), Record(map[k := f]))
  {
  }

  lemma {:induction false} LoneTree(k: string, f: Field)
    requires f.user ==> !f.retired && Tree(f.shape)
    ensures Tree(Record(map[k := f]))
  {
    assert RecordFields(Record(map[k := f])) == Some(map[k := f]);
  }

  lemma {:induction false} LoneSetting(k: string, f: Field, v: Value)
    ensures HasSettings(Record(map[k := f]), VRecord(map[k := v])) <==> Visible(f, v)
    ensures HasSettings(Optional(Record(map[k := f])), VRecord(map[k := v])) <==> Visible(f, v)
  {
    var fields, o := map[k := f], VRecord(map[k := v]);
    assert RecordFields(Record(fields)) == Some(fields) && RecordFields(Optional(Record(fields))) == Some(fields);
    if Visible(f, v) {
      assert k in fields && k in o.fields && Visible(fields[k], o.fields[k]);
    }
  }

  lemma {:induction false} LoneDifference(k: string, f: Field, before: Value, after: Value)
    requires Conforms(before, f.shape) && Conforms(after, f.shape)
    ensures Differences(map[k := f], map[k := before], map[k := after])
            == (if !Visible(f, after) || Difference(f.shape, before, after).Nothing? then Some(map[])
                else if Difference(f.shape, before, after).Failure? then None
                else Some(map[k := Difference(f.shape, before, after).node]))
  {
    var fields, base, current := map[k := f], map[k := before], map[k := after];
    var r := Differences(fields, base, current);
    assert k in fields;
    if r.Some? {
      if Visible(f, after) && Difference(f.shape, before, after).Whole? {
        assert r.value.Keys == {k};
        assert r.value[k] == Difference(f.shape, before, after).node;
        assert r.value == map[k := Difference(f.shape, before, after).node];
      } else {
        assert r.value.Keys == {};
      }
    }
  }

  /** An optional part with one number, which is a setting or not, and where it is kept. */
  const SIZE := "size"
  const PART := "part"

  function PartOf(user: bool): Shape { Optional(Record(map[SIZE := Field(AnyInt, user, false, None)])) }

  function PartField(user: bool): Field { Field(PartOf(user), true, false, None) }

  function Fitted(size: int): Value { VRecord(map[SIZE := VInt(size)]) }

  lemma {:induction false} PartFacts(user: bool, size: int)
    ensures Conforms(VNull, PartOf(user)) && Conforms(Fitted(size), PartOf(user)) && Tree(PartOf(user))
    ensures HasSettings(PartOf(user), Fitted(size)) <==> user
  {
    LoneConforms(SIZE, Field(AnyInt, user, false, None), VInt(size));
    LoneTree(SIZE, Field(AnyInt, user, false, None));
    LoneSetting(SIZE, Field(AnyInt, user, false, None), VInt(size));
  }

  lemma {:induction false} OwnerFacts(user: bool, size: int)
    ensures var shape := Record(map[PART := PartField(user)]);
            Conforms(VRecord(map[PART := VNull]), shape) && Conforms(VRecord(map[PART := Fitted(size)]), shape)
              && Tree(shape)
  {
    PartFacts(user, size);
    LoneConforms(PART, PartField(user), VNull);
    LoneConforms(PART, PartField(user), Fitted(size));
    LoneTree(PART, PartField(user));
  }

  /** A part with a setting appears, and the changes cannot be written. */
  lemma {:induction false} AppearingObjectFails(size: int)
    ensures Conforms(VNull, PartOf(true)) && Conforms(Fitted(size), PartOf(true))
            && Tree(Record(map[PART := PartField(true)]))
    ensures Differences(map[PART := PartField(true)], map[PART := VNull], map[PART := Fitted(size)]) == None
  {
    PartFacts(true, size);
    OwnerFacts(true, size);
    LoneDifference(PART, PartField(true), VNull, Fitted(size));
  }

  /** A part without settings appears, and is dropped without an error. */
  lemma {:induction false} UnseenObjectIsDropped(size: int, locate: Locate)
    ensures Conforms(VNull, PartOf(false)) && Conforms(Fitted(size), PartOf(false))
            && Tree(Record(map[PART := PartField(false)]))
    ensures Differences(map[PART := PartField(false)], map[PART := VNull], map[PART := Fitted(size)]) == Some(map[])
    ensures Converted(NMap(map[]), Record(map[PART := PartField(false)]), VRecord(map[PART := VNull]), locate)
            == Some(VRecord(map[PART := VNull]))
  {
    PartFacts(false, size);
    OwnerFacts(false, size);
    LoneDifference(PART, PartField(false), VNull, Fitted(size));
    NothingOverlaid(map[PART := PartField(false)], VRecord(map[PART := VNull]), locate);
  }

  /** A part without settings disappears, and what is written of that cannot be read. */
  lemma {:induction false} UnseenObjectIsUnreadable(size: int, locate: Locate)
    ensures Conforms(VNull, PartOf(false)) && Conforms(Fitted(size), PartOf(false))
            && Tree(Record(map[PART := PartField(false)]))
    ensures Differences(map[PART := PartField(false)], map[PART := Fitted(size)], map[PART := VNull])
            == Some(map[PART := NNull])
    ensures Converted(NMap(map[PART := NNull]), Record(map[PART := PartField(false)]),
                      VRecord(map[PART := Fitted(size)]), locate) == None
  {
    PartFacts(false, size);
    OwnerFacts(false, size);
    LoneDifference(PART, PartField(false), Fitted(size), VNull);
    NotSettable(PART, PartField(false), Fitted(size), NNull, locate);
  }

  /** A document that sets what is no setting of the present object is an error. */
  lemma {:induction false} NotSettable(k: string, f: Field, current: Value, n: Node, locate: Locate)
    requires !Visible(f, current) && !f.retired
    ensures Converted(NMap(map[k := n]), Record(map[k := f]), VRecord(map[k := current]), locate) == None
  {
    assert !Settable(VRecord(map[k := current]), k, f);
    assert k in map[k := n];
  }
}
