/** What loading accepts: every document that is read gives a tree of the declared types, and no unknown key is read. */
module SettingsLoading {
  import opened Prelude
  import opened SettingsTree
  import opened SettingsDocument

  /** Class declarations as in the program: no option of an option, data types by their short names, typed defaults. */
  predicate Sound(shape: Shape)
    decreases shape
  {
    match shape
    case AnyDtype(names) => forall name :: name in names ==> !(TORCH <= name)
    case Optional(inner) => !inner.Optional? && Sound(inner)
    case ListOf(item) => Sound(item)
    case TupleAny(item) => Sound(item)
    case TupleOf(parts) => forall i :: 0 <= i < |parts| ==> Sound(parts[i])
    case MapOf(item) => Sound(item)
    case Record(fields) =>
      forall k :: k in fields ==>
        Sound(fields[k].shape)
        && (fields[k].default.Some? ==> Conforms(fields[k].default.value, fields[k].shape))
    case _ => true
  }

  ghost predicate Locates(locate: Locate) { forall path :: "/" <= locate(path) }

  lemma {:induction false} ItemsConform(nodes: seq<Node>, item: Shape, elements: seq<Value>, locate: Locate, i: nat)
    requires Sound(item) && Locates(locate) && Familiar(At(elements, i), item) && i < |nodes|
    ensures var v := Converted(nodes[i], item, At(elements, i), locate); v.Some? ==> Conforms(v.value, item)
    decreases item, 3
  {
    LoadedConforms(nodes[i], item, At(elements, i), locate);
  }

  lemma {:induction false} ListConforms(n: Node, shape: Shape, item: Shape, current: Value, locate: Locate)
    requires (shape == ListOf(item) || shape == TupleAny(item)) && Sound(item) && Locates(locate)
    requires Familiar(current, shape) && Converted(n, shape, current, locate).Some?
    ensures Conforms(Converted(n, shape, current, locate).value, shape)
    decreases item, 4
  {
    var read := Converted(n, shape, current, locate).value;
    forall i: nat | i < |n.items| ensures Conforms(read.items[i], item) {
      ElementFamiliar(current, item, i);
      ItemsConform(n.items, item, Elements(current), locate, i);
    }
  }

  lemma {:induction false} PartsConform(n: Node, parts: seq<Shape>, current: Value, locate: Locate)
    requires Sound(TupleOf(parts)) && Locates(locate) && Familiar(current, TupleOf(parts))
    requires Converted(n, TupleOf(parts), current, locate).Some?
    ensures Conforms(Converted(n, TupleOf(parts), current, locate).value, TupleOf(parts))
    decreases TupleOf(parts), 0
  {
    forall i: nat | i < |parts|
      ensures Conforms(Converted(n.items[i], parts[i], At(Elements(current), i), locate).value, parts[i])
    {
      PartFamiliar(current, parts, i);
      LoadedConforms(n.items[i], parts[i], At(Elements(current), i), locate);
    }
  }

  lemma {:induction false} EntriesConform(n: Node, item: Shape, current: Value, locate: Locate)
    requires Sound(item) && Locates(locate) && Familiar(current, MapOf(item))
    requires Converted(n, MapOf(item), current, locate).Some?
    ensures Conforms(Converted(n, MapOf(item), current, locate).value, MapOf(item))
    decreases MapOf(item), 0
  {
    forall k | k in n.entries ensures Conforms(Converted(n.entries[k], item, Entry(current, k), locate).value, item) {
      EntryFamiliar(current, item, k);
      LoadedConforms(n.entries[k], item, Entry(current, k), locate);
    }
  }

  lemma {:induction false} PresentConforms(fields: map<string, Field>, current: Value, k: string)
    requires Sound(Record(fields)) && Familiar(current, Record(fields)) && k in fields
    ensures var v := Present(current, k, fields[k]); v.Some? ==> Conforms(v.value, fields[k].shape)
  {
  }

  lemma {:induction false} FieldConforms(entries: map<string, Node>, fields: map<string, Field>, current: Value,
                                         locate: Locate, k: string)
    requires Sound(Record(fields)) && Locates(locate) && Familiar(current, Record(fields)) && k in fields
    requires Overlay(entries, k, fields[k], current, locate).Some?
    ensures Conforms(Overlay(entries, k, fields[k], current, locate).value, fields[k].shape)
    decreases Record(fields), 0
  {
    PresentConforms(fields, current, k);
    if k in entries && fields[k].user && !fields[k].retired {
      LoadedConforms(entries[k], fields[k].shape, OrNull(Present(current, k, fields[k])), locate);
    }
  }

  lemma {:induction false} FieldsConform(n: Node, fields: map<string, Field>, current: Value, locate: Locate)
    requires Sound(Record(fields)) && Locates(locate) && Familiar(current, Record(fields))
    requires Converted(n, Record(fields), current, locate).Some?
    ensures Conforms(Converted(n, Record(fields), current, locate).value, Record(fields))
    decreases Record(fields), 1
  {
    forall k | k in fields ensures Conforms(Overlay(n.entries, k, fields[k], current, locate).value, fields[k].shape) {
      assert Overlay(n.entries, k, fields[k], current, locate).Some?;
      FieldConforms(n.entries, fields, current, locate, k);
    }
  }

  lemma {:induction false} ScalarConforms(n: Node, shape: Shape, current: Value, locate: Locate)
    requires Sound(shape) && Locates(locate)
    requires !shape.Optional? && !shape.ListOf? && !shape.TupleAny? && !shape.TupleOf? && !shape.MapOf?
             && !shape.Record?
    ensures Converted(n, shape, current, locate).Some? ==> Conforms(Converted(n, shape, current, locate).value, shape)
  {
  }

  lemma {:induction false} OptionOf(v: Value, current: Value, inner: Shape)
    requires !inner.Optional?
    ensures Conforms(v, inner) ==> Conforms(v, Optional(inner))
    ensures Familiar(current, Optional(inner)) ==> Familiar(current, inner)
  {
  }

  lemma {:induction false} OptionConforms(n: Node, inner: Shape, current: Value, locate: Locate)
    requires !inner.Optional? && Sound(inner) && Locates(locate) && Familiar(current, Optional(inner)) && n != NNull
    ensures var v := Converted(n, Optional(inner), current, locate); v.Some? ==> Conforms(v.value, Optional(inner))
    decreases Optional(inner), 0
  {
    var v := Converted(n, inner, current, locate);
    OptionalConverts(n, inner, current, locate);
    OptionOf(if v.Some? then v.value else VNull, current, inner);
    LoadedConforms(n, inner, current, locate);
  }

  /** Whatever a document node is read as has the declared type, all the way down. */
  lemma {:induction false} LoadedConforms(n: Node, shape: Shape, current: Value, locate: Locate)
    requires Sound(shape) && Locates(locate) && Familiar(current, shape)
    ensures Converted(n, shape, current, locate).Some? ==> Conforms(Converted(n, shape, current, locate).value, shape)
    decreases shape, 2
  {
    if Converted(n, shape, current, locate).Some? {
      match shape
      case Optional(inner) =>
        if n != NNull {
          OptionConforms(n, inner, current, locate);
        }
      case ListOf(item) => ListConforms(n, shape, item, current, locate);
      case TupleAny(item) => ListConforms(n, shape, item, current, locate);
      case TupleOf(parts) => PartsConform(n, parts, current, locate);
      case MapOf(item) => EntriesConform(n, item, current, locate);
      case Record(fields) => FieldsConform(n, fields, current, locate);
      case _ => ScalarConforms(n, shape, current, locate);
    }
  }

  /** An object is read only from a document that names settings of it alone; the fields not named stay as they were. */
  lemma {:induction false} ObjectIsOverlaid(entries: map<string, Node>, fields: map<string, Field>, current: Value,
                                            locate: Locate)
    requires Conforms(current, Record(fields)) && Converted(NMap(entries), Record(fields), current, locate).Some?
    ensures forall k :: k in entries ==>
              k in fields && (fields[k].retired || (fields[k].user && Visible(fields[k], current.fields[k])))
    ensures forall k :: k in fields && (k !in entries || fields[k].retired || !fields[k].user) ==>
              Converted(NMap(entries), Record(fields), current, locate).value.fields[k] == current.fields[k]
  {
    var read := Converted(NMap(entries), Record(fields), current, locate).value;
    forall k | k in fields ensures Some(read.fields[k]) == Overlay(entries, k, fields[k], current, locate) {
      assert Overlay(entries, k, fields[k], current, locate).Some?;
    }
  }

  /** A field that an object's document leaves out has the present value, or in a new object the class default. */
  lemma {:induction false} FieldLeftOut(n: Node, fields: map<string, Field>, current: Value, locate: Locate, k: string)
    requires Familiar(current, Record(fields)) && Converted(n, Record(fields), current, locate).Some?
    requires k in fields && k !in n.entries
    ensures current.VRecord? ==> Converted(n, Record(fields), current, locate).value.fields[k] == current.fields[k]
    ensures current == VNull ==>
              fields[k].default == Some(Converted(n, Record(fields), current, locate).value.fields[k])
  {
    assert Overlay(n.entries, k, fields[k], current, locate).Some?;
  }

  function FieldOf(v: Value, k: string): Option<Value> {
    if v.VRecord? && k in v.fields then Some(v.fields[k]) else None
  }

  lemma {:induction false} ElementRead(nodes: seq<Node>, item: Shape, current: Value, locate: Locate, i: nat)
    requires Converted(NList(nodes), ListOf(item), current, locate).Some? && i < |nodes|
    ensures Converted(nodes[i], item, At(Elements(current), i), locate)
            == Some(Converted(NList(nodes), ListOf(item), current, locate).value.items[i])
  {
    assert Converted(nodes[i], item, At(Elements(current), i), locate).Some?;
  }

  /**
   * A list of objects is read place by place: a field that an object's document leaves out keeps the value of the
   * present object in the same place; an object beyond the present ones has the class default.
   */
  lemma {:induction false} ListIsOverlaid(nodes: seq<Node>, fields: map<string, Field>, current: Value, locate: Locate,
                                          i: nat, k: string)
    requires Conforms(current, ListOf(Record(fields))) && i < |nodes| && k in fields
    requires Converted(NList(nodes), ListOf(Record(fields)), current, locate).Some?
    ensures nodes[i].NMap?
    ensures var read := Converted(NList(nodes), ListOf(Record(fields)), current, locate).value.items[i];
            k !in nodes[i].entries ==>
              FieldOf(read, k).Some?
              && FieldOf(read, k) == if i < |current.items| then FieldOf(current.items[i], k) else fields[k].default
  {
    ElementFamiliar(current, Record(fields), i);
    ElementRead(nodes, Record(fields), current, locate, i);
    if k !in nodes[i].entries {
      FieldLeftOut(nodes[i], fields, At(Elements(current), i), locate, k);
    }
  }

  /** A map of objects is read entry by entry, over the present object under the same key or from the class defaults. */
  lemma {:induction false} MapIsOverlaid(entries: map<string, Node>, fields: map<string, Field>, current: Value,
                                         locate: Locate, key: string, k: string)
    requires Conforms(current, MapOf(Record(fields))) && key in entries && k in fields
    requires Converted(NMap(entries), MapOf(Record(fields)), current, locate).Some?
    ensures entries[key].NMap?
    ensures var read := Converted(NMap(entries), MapOf(Record(fields)), current, locate).value;
            && read.entries.Keys == entries.Keys
            && (k !in entries[key].entries ==>
                  FieldOf(read.entries[key], k).Some?
                  && FieldOf(read.entries[key], k)
                     == if key in current.entries then FieldOf(current.entries[key], k) else fields[k].default)
  {
    EntryFamiliar(current, Record(fields), key);
    assert Converted(entries[key], Record(fields), Entry(current, key), locate).Some?;
    if k !in entries[key].entries {
      FieldLeftOut(entries[key], fields, Entry(current, key), locate, k);
    }
  }

  /** A relative path is taken from the document's directory; as it is then written, it is the same from any other. */
  lemma {:induction false} PathIsLocated(path: string, current: Value, locate: Locate, elsewhere: Locate)
    requires Locates(locate)
    ensures var v := Converted(NString(path), AnyPath, current, locate);
            && v == Some(VPath(if "/" <= path then path else locate(path)))
            && Converted(Serialized(v.value), AnyPath, current, elsewhere) == v
  {
  }

  /** A data type is read alike under its short name and its full name, and written under the short one. */
  lemma {:induction false} TypeNames(names: set<string>, name: string, current: Value, locate: Locate)
    requires Sound(AnyDtype(names)) && name in names
    ensures Converted(NString(name), AnyDtype(names), current, locate) == Some(VDtype(name))
    ensures Converted(NString(TORCH + name), AnyDtype(names), current, locate) == Some(VDtype(name))
    ensures Serialized(VDtype(name)) == NString(name)
  {
    assert (TORCH + name)[|TORCH|..] == name;
  }

  /** So a settings file that is loaded gives a tree of the declared types that passes validation. */
  lemma {:induction false} FileGivesValidTree(shape: Shape, defaults: Value, doc: map<string, Node>,
                                              valid: Value -> bool, locate: Locate)
    requires Sound(shape) && Locates(locate) && Conforms(defaults, shape) && HasLiveEdit(shape)
    ensures Loaded(shape, defaults, doc, valid, locate).Some? ==>
              var v := Loaded(shape, defaults, doc, valid, locate).value; Conforms(v, shape) && valid(v)
  {
    var n := NMap(WithoutRetired(doc) - {VERSION_KEY});
    LoadedConforms(n, shape, defaults, locate);
    var read := Converted(n, shape, defaults, locate);
    if read.Some? {
      NormalizedConforms(shape, read.value, read.value);
    }
  }
}
