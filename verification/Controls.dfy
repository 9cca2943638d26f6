/** Device controls: rebinding by swap, sparse saving, and loading over the defaults. */
module Controls {
  import opened Prelude
  import opened Bindings

  /** The two binding slots of one action. */
  type Slots = seq<Option<Binding>>

  datatype Field = Field(name: string, kind: ActionKind)

  /** A device's actions in menu order; no name occurs twice. */
  type Schema = seq<Field>

  type Settings = map<string, Slots>

  ghost predicate GoodSchema(schema: Schema) {
    forall i, j :: 0 <= i < j < |schema| ==> schema[i].name != schema[j].name
  }

  function Names(schema: Schema): set<string> { set f | f in schema :: f.name }

  function KindOf(schema: Schema, name: string): (kind: ActionKind)
    requires name in Names(schema)
    ensures Field(name, kind) in schema
  {
    if schema[0].name == name then schema[0].kind
    else
      assert schema == [schema[0]] + schema[1..];
      KindOf(schema[1..], name)
  }

  ghost predicate Shaped(schema: Schema, s: Settings) {
    s.Keys == Names(schema) && forall name :: name in s ==> |s[name]| == 2
  }

  /** One slot of one action. */
  datatype Place = Place(name: string, slot: nat)

  predicate Has(s: Settings, p: Place) {
    p.name in s && p.slot < |s[p.name]|
  }

  function Get(s: Settings, p: Place): Option<Binding>
    requires Has(s, p)
  {
    s[p.name][p.slot]
  }

  function Set(s: Settings, p: Place, b: Option<Binding>): Settings
    requires Has(s, p)
  {
    s[p.name := s[p.name][p.slot := b]]
  }

  ghost predicate NoDuplicates(s: Settings) {
    forall p, q :: Has(s, p) && Has(s, q) && Get(s, p).Some? && Get(s, p) == Get(s, q) ==> p == q
  }

  ghost predicate AllFit(device: Device, schema: Schema, s: Settings)
    requires Shaped(schema, s)
  {
    forall p :: Has(s, p) && Get(s, p).Some? ==> Fits(Get(s, p).value, device, KindOf(schema, p.name))
  }

  /** What validation accepts: the device's actions, two slots each, fitting bindings, none used twice. */
  ghost predicate Valid(device: Device, schema: Schema, s: Settings) {
    Shaped(schema, s) && AllFit(device, schema, s) && NoDuplicates(s)
  }

  // ---------- rebinding ----------

  /** The first other place holding `b`, scanning actions in order from the `i`-th and slots in order. */
  function Duplicate(schema: Schema, s: Settings, b: Binding, except: Place, i: nat): (r: Option<Place>)
    requires Shaped(schema, s) && i <= |schema|
    ensures r.Some? ==> Has(s, r.value) && r.value != except && Get(s, r.value) == Some(b)
    ensures r.None? ==>
              forall k, slot :: i <= k < |schema| && 0 <= slot < 2 && Place(schema[k].name, slot) != except ==>
                s[schema[k].name][slot] != Some(b)
    decreases |schema| - i
  {
    if i == |schema| then None
    else
      var name := schema[i].name;
      assert name in Names(schema);
      if s[name][0] == Some(b) && Place(name, 0) != except then Some(Place(name, 0))
      else if s[name][1] == Some(b) && Place(name, 1) != except then Some(Place(name, 1))
      else Duplicate(schema, s, b, except, i + 1)
  }

  function Conflict(schema: Schema, s: Settings, p: Place, b: Option<Binding>): (r: Option<Place>)
    requires Shaped(schema, s)
    ensures r.Some? ==> b.Some? && Has(s, r.value) && r.value != p && Get(s, r.value) == b
    ensures r.None? && b.Some? ==> forall q :: Has(s, q) && q != p ==> Get(s, q) != b
  {
    match b
    case None => None
    case Some(binding) =>
      var r := Duplicate(schema, s, binding, p, 0);
      assert r.None? ==> forall q :: Has(s, q) && q != p ==> Get(s, q) != b by {
        if r.None? {
          forall q | Has(s, q) && q != p ensures Get(s, q) != b {
            var k :| 0 <= k < |schema| && schema[k].name == q.name;
            assert Place(schema[k].name, q.slot) == q;
          }
        }
      }
      r
  }

  /** The settings after putting `b` at `p`; a place that held it receives what `p` held. */
  function Rebound(schema: Schema, s: Settings, p: Place, b: Option<Binding>): Settings
    requires Shaped(schema, s) && Has(s, p)
  {
    match Conflict(schema, s, p, b)
    case None => Set(s, p, b)
    case Some(q) => Set(Set(s, p, b), q, Get(s, p))
  }

  datatype UpdateError = BadSlot | UnknownAction

  method UpdateBinding(schema: Schema, s: Settings, action: string, slot: int, b: Option<Binding>)
    returns (r: Result<Settings, UpdateError>)
    requires Shaped(schema, s)
    ensures r == if slot != 0 && slot != 1 then Err(BadSlot)
                 else if action !in Names(schema) then Err(UnknownAction)
                 else Ok(Rebound(schema, s, Place(action, slot), b))
  {
    if slot != 0 && slot != 1 {
      return Err(BadSlot);
    }
    if action !in Names(schema) {
      return Err(UnknownAction);
    }
    var slots := s[action];
    var previous := slots[slot];
    var duplicate: Option<Place> := None;
    if b.Some? {
      for i := 0 to |schema|
        invariant duplicate == None
        invariant Duplicate(schema, s, b.value, Place(action, slot), i)
                  == Duplicate(schema, s, b.value, Place(action, slot), 0)
      {
        var name := schema[i].name;
        assert name in Names(schema);
        for other := 0 to 2
          invariant duplicate == None
          invariant forall k :: 0 <= k < other ==> !(s[name][k] == b && Place(name, k) != Place(action, slot))
        {
          if s[name][other] == b && Place(name, other) != Place(action, slot) {
            duplicate := Some(Place(name, other));
            break;
          }
        }
        if duplicate.Some? {
          break;
        }
      }
    }
    var updated := s[action := slots[slot := b]];
    if duplicate.Some? {
      var dup := duplicate.value;
      updated := updated[dup.name := updated[dup.name][dup.slot := previous]];
    }
    r := Ok(updated);
  }

  /** Rebinding changes the chosen place and, on a conflict, exactly the other place, which takes what was there. */
  lemma {:induction false} ReboundIsSwap(schema: Schema, s: Settings, p: Place, b: Option<Binding>)
    requires Shaped(schema, s) && Has(s, p)
    ensures var r := Rebound(schema, s, p, b);
            && Shaped(schema, r)
            && (forall q :: Has(r, q) <==> Has(s, q))
            && (forall q :: Has(s, q) ==>
                  Get(r, q) == if q == p then b
                               else if Conflict(schema, s, p, b) == Some(q) then Get(s, p)
                               else Get(s, q))
  {
  }

  lemma {:induction false} ReboundFits(device: Device, schema: Schema, s: Settings, p: Place, b: Option<Binding>)
    requires Valid(device, schema, s) && Has(s, p)
    requires b.Some? ==> Fits(b.value, device, KindOf(schema, p.name))
    ensures Shaped(schema, Rebound(schema, s, p, b)) && AllFit(device, schema, Rebound(schema, s, p, b))
  {
    ReboundIsSwap(schema, s, p, b);
    var r := Rebound(schema, s, p, b);
    forall q | Has(r, q) && Get(r, q).Some? ensures Fits(Get(r, q).value, device, KindOf(schema, q.name)) {
      if q != p && Conflict(schema, s, p, b) == Some(q) {
        KindsDisjoint(b.value, device, KindOf(schema, p.name), KindOf(schema, q.name));
      }
    }
  }

  lemma {:induction false} ReboundUnique(schema: Schema, s: Settings, p: Place, b: Option<Binding>)
    requires Shaped(schema, s) && NoDuplicates(s) && Has(s, p)
    ensures NoDuplicates(Rebound(schema, s, p, b))
  {
    ReboundIsSwap(schema, s, p, b);
    var r := Rebound(schema, s, p, b);
    forall q, q' | Has(r, q) && Has(r, q') && Get(r, q).Some? && Get(r, q) == Get(r, q') ensures q == q' {
      assert Has(s, q) && Has(s, q');
    }
  }

  /** A valid device stays valid: nothing is bound twice and every action keeps a binding of its own kind. */
  lemma {:induction false} ReboundKeepsValid(device: Device, schema: Schema, s: Settings, p: Place, b: Option<Binding>)
    requires Valid(device, schema, s) && Has(s, p)
    requires b.Some? ==> Fits(b.value, device, KindOf(schema, p.name))
    ensures Valid(device, schema, Rebound(schema, s, p, b))
  {
    ReboundFits(device, schema, s, p, b);
    ReboundUnique(schema, s, p, b);
  }

  /** All slots of all actions, in menu order. */
  function AllSlots(schema: Schema, s: Settings): seq<Option<Binding>>
    requires Names(schema) <= s.Keys
  {
    if schema == [] then []
    else
      assert schema == schema[..|schema| - 1] + [schema[|schema| - 1]];
      AllSlots(schema[..|schema| - 1], s) + s[schema[|schema| - 1].name]
  }

  lemma {:induction false} SetOther(schema: Schema, s: Settings, p: Place, b: Option<Binding>)
    requires Names(schema) <= s.Keys && Has(s, p) && p.name !in Names(schema)
    ensures AllSlots(schema, Set(s, p, b)) == AllSlots(schema, s)
  {
    if schema != [] {
      assert schema == schema[..|schema| - 1] + [schema[|schema| - 1]];
      SetOther(schema[..|schema| - 1], s, p, b);
    }
  }

  lemma {:induction false} ReplaceInPart<T>(front: multiset<T>, x: T, y: T, back: multiset<T>)
    ensures x in front ==> front - multiset{x} + multiset{y} + back == front + back - multiset{x} + multiset{y}
    ensures x in front ==> back + (front - multiset{x} + multiset{y}) == back + front - multiset{x} + multiset{y}
  {
  }

  /** Writing one slot swaps one element of the multiset of all slots. */
  lemma {:induction false} SetReplaces(schema: Schema, s: Settings, p: Place, b: Option<Binding>)
    requires GoodSchema(schema) && Names(schema) <= s.Keys && Has(s, p) && p.name in Names(schema)
    ensures Get(s, p) in multiset(AllSlots(schema, s))
    ensures multiset(AllSlots(schema, Set(s, p, b)))
            == multiset(AllSlots(schema, s)) - multiset{Get(s, p)} + multiset{b}
  {
    var init, last := schema[..|schema| - 1], schema[|schema| - 1];
    assert schema == init + [last];
    var t := Set(s, p, b);
    assert multiset(AllSlots(schema, s)) == multiset(AllSlots(init, s)) + multiset(s[last.name]);
    assert multiset(AllSlots(schema, t)) == multiset(AllSlots(init, t)) + multiset(t[last.name]);
    if last.name == p.name {
      assert p.name !in Names(init);
      SetOther(init, s, p, b);
      assert Get(s, p) in multiset(s[p.name]);
      ReplaceInPart(multiset(s[p.name]), Get(s, p), b, multiset(AllSlots(init, s)));
    } else {
      SetReplaces(init, s, p, b);
      ReplaceInPart(multiset(AllSlots(init, s)), Get(s, p), b, multiset(s[last.name]));
    }
  }

  lemma {:induction false} SwapBack<T>(m: multiset<T>, x: T, y: T)
    requires x in m
    ensures m - multiset{x} + multiset{y} - multiset{y} + multiset{x} == m
  {
  }

  /** Exchanging two places keeps every binding. */
  lemma {:induction false} ExchangeConserves(schema: Schema, s: Settings, p: Place, q: Place)
    requires GoodSchema(schema) && Shaped(schema, s) && Has(s, p) && Has(s, q) && p != q
    ensures multiset(AllSlots(schema, Set(Set(s, p, Get(s, q)), q, Get(s, p)))) == multiset(AllSlots(schema, s))
  {
    var mid := Set(s, p, Get(s, q));
    assert Get(mid, q) == Get(s, q);
    SetReplaces(schema, s, p, Get(s, q));
    SetReplaces(schema, mid, q, Get(s, p));
    SwapBack(multiset(AllSlots(schema, s)), Get(s, p), Get(s, q));
  }

  /** On a conflict no binding is gained or lost; otherwise the new one replaces the old. */
  lemma {:induction false} ReboundConserves(schema: Schema, s: Settings, p: Place, b: Option<Binding>)
    requires GoodSchema(schema) && Shaped(schema, s) && Has(s, p)
    ensures multiset(AllSlots(schema, Rebound(schema, s, p, b))) ==
            if Conflict(schema, s, p, b).Some? then multiset(AllSlots(schema, s))
            else multiset(AllSlots(schema, s)) - multiset{Get(s, p)} + multiset{b}
  {
    match Conflict(schema, s, p, b)
    case None => SetReplaces(schema, s, p, b);
    case Some(q) => ExchangeConserves(schema, s, p, q);
  }

  // ---------- any number of edits ----------

  /** The rebinding screen either captures a live input for a slot or clears it. */
  datatype Edit = CaptureAt(place: Place, event: Event) | ClearAt(place: Place)

  predicate WellFormed(e: Edit, s: Settings) {
    Has(s, e.place) && (e.CaptureAt? && e.event.WheelEvent? ==> |e.event.axes| == 4)
  }

  function Edited(device: Device, schema: Schema, s: Settings, e: Edit): Settings
    requires Shaped(schema, s) && WellFormed(e, s)
  {
    match e
    case ClearAt(p) => Rebound(schema, s, p, None)
    case CaptureAt(p, event) =>
      match Capture(device, KindOf(schema, p.name), event)
      case None => s
      case Some(b) => Rebound(schema, s, p, Some(b))
  }

  lemma {:induction false} EditKeepsValid(device: Device, schema: Schema, s: Settings, e: Edit)
    requires Valid(device, schema, s) && WellFormed(e, s)
    ensures Valid(device, schema, Edited(device, schema, s, e))
  {
    match e
    case ClearAt(p) => ReboundKeepsValid(device, schema, s, p, None);
    case CaptureAt(p, event) =>
      var captured := Capture(device, KindOf(schema, p.name), event);
      CapturedFits(device, KindOf(schema, p.name), event);
      if captured.Some? {
        ReboundKeepsValid(device, schema, s, p, captured);
      }
  }

  /** What was captured is then bound in the chosen place, and what was cleared is unbound; nothing else is lost. */
  lemma {:induction false} EditTakesEffect(device: Device, schema: Schema, s: Settings, e: Edit)
    requires Shaped(schema, s) && WellFormed(e, s)
    ensures var r, p := Edited(device, schema, s, e), e.place;
            && Has(r, p)
            && Get(r, p) == (match e
                             case ClearAt(_) => None
                             case CaptureAt(_, event) =>
                               var b := Capture(device, KindOf(schema, p.name), event);
                               if b.Some? then b else Get(s, p))
            && forall q :: Has(s, q) && q != p && Get(s, q) != Get(r, p) ==> Has(r, q) && Get(r, q) == Get(s, q)
  {
    match e
    case ClearAt(p) => ReboundIsSwap(schema, s, p, None);
    case CaptureAt(p, event) => ReboundIsSwap(schema, s, p, Capture(device, KindOf(schema, p.name), event));
  }

  /** A draft reached from valid settings by any number of edits. */
  ghost predicate Drafted(device: Device, schema: Schema, s: Settings, edits: seq<Edit>, r: Settings)
    requires Shaped(schema, s)
  {
    if edits == [] then r == s
    else
      && WellFormed(edits[0], s)
      && Shaped(schema, Edited(device, schema, s, edits[0]))
      && Drafted(device, schema, Edited(device, schema, s, edits[0]), edits[1..], r)
  }

  /** No sequence of captures and clears can produce settings that validation would refuse. */
  lemma {:induction false} DraftsStayValid(device: Device, schema: Schema, s: Settings, edits: seq<Edit>, r: Settings)
    requires Valid(device, schema, s) && Drafted(device, schema, s, edits, r)
    ensures Valid(device, schema, r)
    decreases |edits|
  {
    if edits != [] {
      EditKeepsValid(device, schema, s, edits[0]);
      DraftsStayValid(device, schema, Edited(device, schema, s, edits[0]), edits[1..], r);
    }
  }
}
