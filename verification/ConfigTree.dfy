/** The documents as nested mutable mappings: `set_path` walks down and writes in place, `derive` does so on a copy. */
module ConfigTree {
  import opened ConfigPaths
  import opened DeriveConfig
  import opened Wrappers

  datatype Entry = Plain(atom: Atom) | Sub(node: Mapping)

  datatype Slot = Slot(key: string, entry: Entry)

  class Mapping {
    var items: seq<Slot>
    /** Every mapping nested in this one. */
    ghost var inner: set<Mapping>

    constructor (items: seq<Slot>, ghost inner: set<Mapping>)
      ensures this.items == items && this.inner == inner
    {
      this.items := items;
      this.inner := inner;
    }

    ghost predicate Valid()
      reads this, inner
    {
      this !in inner && ValidItems(Snapshot({this} + inner), items, inner)
    }

    ghost function Contents(): Doc
      requires Valid()
      reads this, inner
    {
      DocOf(Snapshot({this} + inner), items, inner)
    }
  }

  // ----- the state of some mappings at one moment -----

  datatype Cell = Cell(items: seq<Slot>, inner: set<Mapping>)

  type State = map<Mapping, Cell>

  ghost function Snapshot(r: set<Mapping>): State
    reads r
  {
    map o | o in r :: Cell(o.items, o.inner)
  }

  /** The nested mappings live in r, each in a part of its own: no mapping is nested twice. */
  ghost predicate ValidItems(h: State, items: seq<Slot>, r: set<Mapping>)
    decreases r, |items|
  {
    items == [] ||
    match items[0].entry
    case Plain(_) => ValidItems(h, items[1..], r)
    case Sub(m) => Nested(h, m, r) && ValidItems(h, h[m].items, h[m].inner) && ValidItems(h, items[1..], r - Part(h, m))
  }

  ghost predicate Nested(h: State, m: Mapping, r: set<Mapping>) {
    m in h && m in r && m !in h[m].inner && h[m].inner <= r
  }

  ghost function Part(h: State, m: Mapping): set<Mapping>
    requires m in h
  {
    {m} + h[m].inner
  }

  ghost function DocOf(h: State, items: seq<Slot>, r: set<Mapping>): Doc
    requires ValidItems(h, items, r)
    decreases r, |items|
  {
    if items == [] then []
    else
      match items[0].entry
      case Plain(a) => [Item(items[0].key, Leaf(a))] + DocOf(h, items[1..], r)
      case Sub(m) =>
        [Item(items[0].key, Dict(DocOf(h, h[m].items, h[m].inner)))] + DocOf(h, items[1..], r - Part(h, m))
  }

  /** What remains of r for the items after the first. */
  ghost function Rest(h: State, items: seq<Slot>, r: set<Mapping>): (rest: set<Mapping>)
    requires items != [] && ValidItems(h, items, r)
    ensures rest <= r && ValidItems(h, items[1..], rest)
    ensures DocOf(h, items, r)[1..] == DocOf(h, items[1..], rest)
  {
    if items[0].entry.Sub? then r - Part(h, items[0].entry.node) else r
  }

  /** Only the state of the nested mappings matters, and more room does no harm. */
  lemma {:induction false} SameDoc(h: State, h': State, items: seq<Slot>, r: set<Mapping>, r': set<Mapping>)
    requires ValidItems(h, items, r) && r <= r' && forall o | o in r && o in h :: o in h' && h'[o] == h[o]
    ensures ValidItems(h', items, r') && DocOf(h', items, r') == DocOf(h, items, r)
    decreases r, |items|
  {
    if items != [] {
      match items[0].entry
      case Plain(a) => SameDoc(h, h', items[1..], r, r');
      case Sub(m) =>
        SameDoc(h, h', h[m].items, h[m].inner, h[m].inner);
        SameDoc(h, h', items[1..], r - Part(h, m), r' - Part(h, m));
    }
  }

  // ----- one mapping -----

  /** node.get(key) */
  function FindSlot(items: seq<Slot>, key: string): Option<Entry> {
    if items == [] then None else if items[0].key == key then Some(items[0].entry) else FindSlot(items[1..], key)
  }

  /** node[key] = e: in place if the key is there, otherwise at the end. */
  function PutSlot(items: seq<Slot>, key: string, e: Entry): seq<Slot> {
    if items == [] then [Slot(key, e)]
    else if items[0].key == key then [Slot(key, e)] + items[1..]
    else [items[0]] + PutSlot(items[1..], key, e)
  }

  /** The value that an entry stands for. */
  ghost predicate IsValue(h: State, e: Entry, r: set<Mapping>, val: Value) {
    match e
    case Plain(a) => val == Leaf(a)
    case Sub(m) =>
      && Nested(h, m, r) && ValidItems(h, h[m].items, h[m].inner)
      && val == Dict(DocOf(h, h[m].items, h[m].inner))
  }

  /** Looking a key up in the mapping is looking it up in the document. */
  lemma {:induction false} FindSlotIsFind(h: State, items: seq<Slot>, r: set<Mapping>, key: string)
    requires ValidItems(h, items, r)
    ensures FindSlot(items, key).None? <==> Find(DocOf(h, items, r), key).None?
    ensures FindSlot(items, key).Some? ==>
      IsValue(h, FindSlot(items, key).value, r, Find(DocOf(h, items, r), key).value)
    decreases |items|
  {
    if items != [] && items[0].key != key {
      FindSlotIsFind(h, items[1..], Rest(h, items, r), key);
    }
  }

  /** Writing a plain value into a mapping writes it into the document. */
  lemma {:induction false} PutSlotIsPut(h: State, items: seq<Slot>, r: set<Mapping>, key: string, a: Atom)
    requires ValidItems(h, items, r)
    ensures ValidItems(h, PutSlot(items, key, Plain(a)), r)
    ensures DocOf(h, PutSlot(items, key, Plain(a)), r) == Put(DocOf(h, items, r), key, Leaf(a))
    decreases |items|
  {
    var after := PutSlot(items, key, Plain(a));
    if items == [] {
      assert after[1..] == [];
    } else if items[0].key == key {
      assert after[1..] == items[1..];
      SameDoc(h, h, items[1..], Rest(h, items, r), r);
    } else {
      assert after[1..] == PutSlot(items[1..], key, Plain(a));
      PutSlotIsPut(h, items[1..], Rest(h, items, r), key, a);
    }
  }

  // ----- the walk -----

  /** The mapping that the walk along the parts ends in, if it gets there. */
  ghost function Walk(h: State, m: Mapping, parts: seq<string>): Option<Mapping>
    requires m in h && parts != []
    decreases |parts|
  {
    if |parts| == 1 then Some(m)
    else
      match FindSlot(h[m].items, parts[0])
      case Some(Sub(c)) => if c in h then Walk(h, c, parts[1..]) else None
      case _ => None
  }

  ghost predicate ValidAt(h: State, m: Mapping) {
    m in h && m !in h[m].inner && ValidItems(h, h[m].items, h[m].inner)
  }

  ghost function DocAt(h: State, m: Mapping): Doc
    requires ValidAt(h, m)
  {
    DocOf(h, h[m].items, h[m].inner)
  }

  /** The walk gets there exactly if the path can be set, and stays among the nested mappings. */
  lemma {:induction false} WalkArrives(h: State, m: Mapping, parts: seq<string>)
    requires ValidAt(h, m) && parts != []
    ensures Walk(h, m, parts).Some? <==> CanSet(DocAt(h, m), parts)
    ensures Walk(h, m, parts).Some? ==>
      var t := Walk(h, m, parts).value;
      t in Part(h, m) && ValidAt(h, t) && h[t].inner <= h[m].inner
    decreases |parts|
  {
    if |parts| > 1 {
      FindSlotIsFind(h, h[m].items, h[m].inner, parts[0]);
      match FindSlot(h[m].items, parts[0])
      case Some(Sub(c)) => WalkArrives(h, c, parts[1..]);
      case _ =>
    }
  }

  /** The state after a value is stored in the target. */
  ghost function Stored(h: State, target: Mapping, key: string, a: Atom): State
    requires target in h
  {
    h[target := Cell(PutSlot(h[target].items, key, Plain(a)), h[target].inner)]
  }

  /** Once the mapping at the end of the walk has the new value, every mapping on the way holds the updated document. */
  lemma {:induction false} StoredThrough(h: State, m: Mapping, parts: seq<string>, a: Atom, target: Mapping)
    requires ValidAt(h, m) && parts != [] && Walk(h, m, parts) == Some(target)
    ensures CanSet(DocAt(h, m), parts)
    ensures target in h
    ensures var h' := Stored(h, target, parts[|parts| - 1], a);
      ValidAt(h', m) && DocAt(h', m) == SetAt(DocAt(h, m), parts, a)
    decreases |parts|, 1, 0
  {
    WalkArrives(h, m, parts);
    var h' := Stored(h, target, parts[|parts| - 1], a);
    var items, r := h[m].items, h[m].inner;
    if |parts| == 1 {
      SameDoc(h, h', items, r, r);
      PutSlotIsPut(h', items, r, parts[0], a);
    } else {
      FindSlotIsFind(h, items, r, parts[0]);
      var c := FindSlot(items, parts[0]).value.node;
      WalkArrives(h, c, parts[1..]);
      ItemsStoredThrough(h, items, r, parts, a, c, target);
    }
  }

  lemma {:induction false} ItemsStoredThrough(h: State, items: seq<Slot>, r: set<Mapping>, parts: seq<string>, a: Atom,
                                              c: Mapping, target: Mapping)
    requires ValidItems(h, items, r) && |parts| > 1 && CanSet(DocOf(h, items, r), parts)
    requires FindSlot(items, parts[0]) == Some(Sub(c)) && ValidAt(h, c)
    requires Walk(h, c, parts[1..]) == Some(target) && target in Part(h, c) && target in h
    ensures var h' := Stored(h, target, parts[|parts| - 1], a);
      ValidItems(h', items, r) && DocOf(h', items, r) == SetAt(DocOf(h, items, r), parts, a)
    decreases |parts|, 0, |items|
  {
    var h', rest := Stored(h, target, parts[|parts| - 1], a), Rest(h, items, r);
    FindSlotIsFind(h, items, r, parts[0]);
    if items[0].key == parts[0] {
      StoredThrough(h, c, parts[1..], a, target);
      SameDoc(h, h', items[1..], rest, rest);
    } else {
      FindSlotIsFind(h, items[1..], rest, parts[0]);
      if items[0].entry.Sub? {
        var m := items[0].entry.node;
        SameDoc(h, h', h[m].items, h[m].inner, h[m].inner);
      }
      ItemsStoredThrough(h, items[1..], rest, parts, a, c, target);
    }
  }

  // ----- set_path -----

  /** One step down. */
  lemma WalkStep(h: State, m: Mapping, parts: seq<string>)
    requires ValidAt(h, m) && |parts| > 1
    ensures match FindSlot(h[m].items, parts[0])
            case Some(Sub(c)) => ValidAt(h, c) && Walk(h, m, parts) == Walk(h, c, parts[1..])
            case _ => Walk(h, m, parts) == None
  {
    FindSlotIsFind(h, h[m].items, h[m].inner, parts[0]);
  }

  /** The loop of the update: the mapping that holds the last part, if every part before it leads to a mapping. */
  method WalkDown(doc: Mapping, parts: seq<string>) returns (r: Option<Mapping>)
    requires doc.Valid() && parts != []
    ensures r == Walk(Snapshot({doc} + doc.inner), doc, parts)
  {
    hide FindSlot, ValidItems, Walk;
    var node, i := doc, 0;
    ghost var h := Snapshot({doc} + doc.inner);
    assert parts[0..] == parts;
    while i < |parts| - 1
      invariant 0 <= i < |parts| && ValidAt(h, node) && Walk(h, node, parts[i..]) == Walk(h, doc, parts)
    {
      assert parts[i..][0] == parts[i] && parts[i..][1..] == parts[i + 1..];
      WalkStep(h, node, parts[i..]);
      var nxt := FindSlot(node.items, parts[i]);
      if nxt.None? || nxt.value.Plain? {
        return None;
      }
      node := nxt.value.node;
      i := i + 1;
    }
    WalkEnd(h, node, parts[i..]);
    return Some(node);
  }

  lemma WalkEnd(h: State, m: Mapping, parts: seq<string>)
    requires m in h && |parts| == 1
    ensures Walk(h, m, parts) == Some(m)
  {
  }

  method SetPath(doc: Mapping, path: string, value: Atom) returns (ok: bool)
    requires doc.Valid()
    modifies doc, doc.inner
    ensures doc.Valid() && doc.inner == old(doc.inner)
    ensures ok <==> CanSet(old(doc.Contents()), Split(path))
    ensures doc.Contents() == if ok then SetAt(old(doc.Contents()), Split(path), value) else old(doc.Contents())
  {
    hide SetAt, CanSet, PutSlot, FindSlot, Walk, ValidItems, DocOf;
    var parts := Split(path);
    ghost var h := Snapshot({doc} + doc.inner);
    WalkArrives(h, doc, parts);
    var found := WalkDown(doc, parts);
    if found.None? {
      return false;
    }
    var node := found.value;
    StoredThrough(h, doc, parts, value, node);
    node.items := PutSlot(node.items, parts[|parts| - 1], Plain(value));
    assert Snapshot({doc} + doc.inner) == Stored(h, node, parts[|parts| - 1], value);
    return true;
  }

  // ----- copy.deepcopy and flatten -----

  /** h holds the present state of every mapping in r. */
  ghost predicate Current(h: State, r: set<Mapping>)
    reads r
  {
    forall o | o in r :: o in h && h[o] == Cell(o.items, o.inner)
  }

  /** Where a mapping and further items exist side by side, they can be put together. */
  lemma ItemInFront(h: State, g: State, both: State, key: string, c: Mapping, rest: seq<Slot>, r: set<Mapping>)
    requires ValidItems(h, rest, r) && c in both && ValidItems(g, both[c].items, both[c].inner)
    requires c !in both[c].inner && Part(both, c) !! r
    requires forall o | o in r && o in h :: o in both && both[o] == h[o]
    requires forall o | o in both[c].inner && o in g :: o in both && both[o] == g[o]
    ensures var items, all := [Slot(key, Sub(c))] + rest, r + Part(both, c);
      && ValidItems(both, items, all)
      && DocOf(both, items, all) == [Item(key, Dict(DocOf(g, both[c].items, both[c].inner)))] + DocOf(h, rest, r)
  {
    var items, all := [Slot(key, Sub(c))] + rest, r + Part(both, c);
    assert items[1..] == rest && all - Part(both, c) == r;
    SameDoc(h, both, rest, r, r);
    SameDoc(g, both, both[c].items, both[c].inner, both[c].inner);
  }

  method CopyItems(ghost h: State, items: seq<Slot>, ghost r: set<Mapping>)
    returns (copied: seq<Slot>, ghost inner: set<Mapping>)
    requires Current(h, r) && ValidItems(h, items, r)
    ensures fresh(inner)
    ensures ValidItems(Snapshot(inner), copied, inner) && DocOf(Snapshot(inner), copied, inner) == DocOf(h, items, r)
    decreases r, |items|
  {
    if items == [] {
      return [], {};
    }
    var rest, restInner := CopyItems(h, items[1..], Rest(h, items, r));
    match items[0].entry
    case Plain(_) =>
      copied, inner := [items[0]] + rest, restInner;
      assert copied[1..] == rest;
    case Sub(m) =>
      var sub, subInner := CopyItems(h, m.items, m.inner);
      var c := new Mapping(sub, subInner);
      copied, inner := [Slot(items[0].key, Sub(c))] + rest, restInner + ({c} + subInner);
      ItemInFront(Snapshot(restInner), Snapshot(subInner), Snapshot(inner), items[0].key, c, rest, restInner);
  }

  method DeepCopy(doc: Mapping) returns (copy: Mapping)
    requires doc.Valid()
    ensures fresh(copy) && fresh(copy.inner) && copy.Valid() && copy.Contents() == doc.Contents()
  {
    var items, inner := CopyItems(Snapshot({doc} + doc.inner), doc.items, doc.inner);
    copy := new Mapping(items, inner);
    SameDoc(Snapshot(inner), Snapshot({copy} + copy.inner), items, inner, inner);
  }

  /** The item that a slot stands for. */
  ghost predicate IsItem(h: State, slot: Slot, r: set<Mapping>, item: Item) {
    item.key == slot.key && IsValue(h, slot.entry, r, item.val)
  }

  /** With these items still to be flattened, the result so far completes to all. */
  ghost predicate Left(h: State, items: seq<Slot>, r: set<Mapping>, prefix: string, out: Flat, all: Flat) {
    ValidItems(h, items, r) && out + Flatten(DocOf(h, items, r), prefix) == all
  }

  lemma FlattenEnds(h: State, items: seq<Slot>, r: set<Mapping>, prefix: string, out: Flat, all: Flat)
    requires ValidItems(h, items, r)
    ensures Left(h, items, r, prefix, map[], Flatten(DocOf(h, items, r), prefix))
    ensures items == [] && Left(h, items, r, prefix, out, all) ==> out == all
  {
  }

  /** One more item moves from the part still to be flattened to the part that is done. */
  lemma FlattenNext(h: State, items: seq<Slot>, r: set<Mapping>, room: set<Mapping>, prefix: string, out: Flat,
                    all: Flat)
    returns (item: Item, rest: set<Mapping>)
    requires items != [] && room <= r && Left(h, items, room, prefix, out, all)
    ensures IsItem(h, items[0], r, item) && rest <= room
    ensures Left(h, items[1..], rest, prefix, out + FlattenEntry(item.key, item.val, prefix), all)
  {
    var doc := DocOf(h, items, room);
    item, rest := doc[0], Rest(h, items, room);
    var entry, later := FlattenEntry(item.key, item.val, prefix), Flatten(doc[1..], prefix);
    assert (out + entry) + later == out + (entry + later);
  }

  method FlattenSlot(ghost h: State, slot: Slot, ghost r: set<Mapping>, prefix: string, ghost item: Item)
    returns (out: Flat)
    requires Current(h, r) && IsItem(h, slot, r, item)
    ensures out == FlattenEntry(item.key, item.val, prefix)
    decreases r, 0
  {
    match slot.entry
    case Plain(a) => out := map[Path(prefix, slot.key) := a];
    case Sub(m) => out := FlattenItems(h, m.items, m.inner, Path(prefix, slot.key));
  }

  method FlattenItems(ghost h: State, items: seq<Slot>, ghost r: set<Mapping>, prefix: string) returns (out: Flat)
    requires Current(h, r) && ValidItems(h, items, r)
    ensures out == Flatten(DocOf(h, items, r), prefix)
    decreases r, 1
  {
    hide Left, IsItem, IsValue;
    out := map[];
    ghost var room, all := r, Flatten(DocOf(h, items, r), prefix);
    FlattenEnds(h, items, r, prefix, out, all);
    assert items[0..] == items;
    for i := 0 to |items|
      invariant room <= r && Left(h, items[i..], room, prefix, out, all)
    {
      ghost var item, rest := FlattenNext(h, items[i..], r, room, prefix, out, all);
      assert items[i..][0] == items[i] && items[i..][1..] == items[i + 1..];
      var entry := FlattenSlot(h, items[i], r, prefix, item);
      out, room := out + entry, rest;
    }
    FlattenEnds(h, [], room, prefix, out, all);
  }

  method Flattened(doc: Mapping) returns (out: Flat)
    requires doc.Valid()
    ensures out == Flatten(doc.Contents(), "")
  {
    out := FlattenItems(Snapshot({doc} + doc.inner), doc.items, doc.inner, "");
  }

  // ----- derive -----

  /** The keys of the treatment in an order, any order. */
  method KeysInOrder(treatment: map<string, Option<Atom>>) returns (order: seq<string>)
    ensures Enumerates(order, treatment)
  {
    order := [];
    var todo := treatment.Keys;
    while todo != {}
      invariant forall k :: k in treatment <==> k in order || k in todo
      invariant forall k | k in order :: k !in todo
      invariant forall i, j | 0 <= i < j < |order| :: order[i] != order[j]
    {
      var k :| k in todo;
      order, todo := order + [k], todo - {k};
    }
  }

  /** A failed update makes the whole sequence of updates fail. */
  lemma {:induction false} FailureStays(doc: Doc, keys: seq<string>, i: nat, values: Flat)
    requires i <= |keys| && forall j | 0 <= j < |keys| :: keys[j] in values
    requires Apply(doc, keys[..i], values).None?
    ensures Apply(doc, keys, values).None?
    decreases |keys|
  {
    if i < |keys| {
      assert keys[..|keys| - 1][..i] == keys[..i];
      FailureStays(doc, keys[..|keys| - 1], i, values);
    } else {
      assert keys[..i] == keys;
    }
  }

  method ApplyAll(out: Mapping, order: seq<string>, values: Flat) returns (ok: bool)
    requires out.Valid() && forall i | 0 <= i < |order| :: order[i] in values
    modifies out, out.inner
    ensures out.inner == old(out.inner)
    ensures ok <==> Apply(old(out.Contents()), order, values).Some?
    ensures ok ==> out.Valid() && Some(out.Contents()) == Apply(old(out.Contents()), order, values)
  {
    hide Mapping.Valid, Mapping.Contents, Split, SetAt, CanSet;
    ghost var start := out.Contents();
    for i := 0 to |order|
      invariant out.Valid() && out.inner == old(out.inner)
      invariant Apply(start, order[..i], values) == Some(out.Contents())
    {
      var key := order[i];
      assert order[..i + 1][..i] == order[..i];
      var done := SetPath(out, key, values[key]);
      if !done {
        FailureStays(start, order, i + 1, values);
        return false;
      }
    }
    assert order[..|order|] == order;
    return true;
  }

  /** The document that an outcome stands for. */
  ghost predicate StandsFor(r: Outcome<Mapping>, d: Outcome<Doc>)
    reads if r.Derived? then {r.doc} + r.doc.inner else {}
  {
    match r
    case Derived(m) => m.Valid() && d == Derived(m.Contents())
    case NoTreatment => d == NoTreatment
    case RemovesKeys => d == RemovesKeys
    case AlreadyTreated => d == AlreadyTreated
    case UnexpectedDrift => d == UnexpectedDrift
    case NotAMapping => d == NotAMapping
    case WrongKeysApplied => d == WrongKeysApplied
    case Residual => d == Residual
  }

  lemma EnumeratesKeys(order: seq<string>, treatment: map<string, Option<Atom>>)
    requires Enumerates(order, treatment)
    ensures forall i | 0 <= i < |order| :: order[i] in treatment
    ensures !Removes(treatment) ==> forall i | 0 <= i < |order| :: order[i] in Values(treatment)
  {
    assert forall i | 0 <= i < |order| :: order[i] in order;
  }

  method CopyAndApply(exampleTreated: Mapping, newBase: Mapping, et: Flat, nb: Flat,
                      treatment: map<string, Option<Atom>>, order: seq<string>, allow: set<string>)
    returns (r: Outcome<Mapping>)
    requires exampleTreated.Valid() && et == Flatten(exampleTreated.Contents(), "")
    requires newBase.Valid() && nb == Flatten(newBase.Contents(), "")
    requires forall i | 0 <= i < |order| :: order[i] in Values(treatment)
    ensures StandsFor(r, ApplyChecked(exampleTreated.Contents(), newBase.Contents(), treatment, allow, order))
    ensures r.Derived? ==> fresh(r.doc) && fresh(r.doc.inner)
  {
    hide Flatten, Delta, Apply, DriftsBeyond, Values, Mapping.Valid, Mapping.Contents;
    var out := DeepCopy(newBase);
    var ok := ApplyAll(out, order, Values(treatment));
    if !ok {
      return NotAMapping;
    }
    var after := Flattened(out);
    if Delta(nb, after).Keys != treatment.Keys {
      return WrongKeysApplied;
    }
    if DriftsBeyond(Delta(et, after), allow) {
      return Residual;
    }
    return Derived(out);
  }

  /** The result is a new document; none of the three given ones is changed. */
  method Derive(exampleBase: Mapping, exampleTreated: Mapping, newBase: Mapping, allow: set<string>)
    returns (r: Outcome<Mapping>, ghost order: seq<string>)
    requires exampleBase.Valid() && exampleTreated.Valid() && newBase.Valid()
    ensures Enumerates(order, DeltaOf(exampleBase.Contents(), exampleTreated.Contents()))
    ensures forall i | 0 <= i < |order| :: order[i] in DeltaOf(exampleBase.Contents(), exampleTreated.Contents())
    ensures StandsFor(r, DeriveIn(exampleBase.Contents(), exampleTreated.Contents(), newBase.Contents(), allow, order))
    ensures r.Derived? ==> fresh(r.doc) && fresh(r.doc.inner)
    ensures StopsEarly(r, Flatten(exampleBase.Contents(), ""), Flatten(exampleTreated.Contents(), ""),
                       Flatten(newBase.Contents(), ""), allow)
  {
    hide Flatten, Delta, ApplyChecked, Removes, Carries, DriftsBeyond, Values, Enumerates;
    hide Mapping.Valid, Mapping.Contents, StopsEarly;
    var eb := Flattened(exampleBase);
    var et := Flattened(exampleTreated);
    var nb := Flattened(newBase);
    var treatment := Delta(eb, et);
    var keys := KeysInOrder(treatment);
    order := keys;
    EnumeratesKeys(keys, treatment);
    OrderEnumerates(order, exampleBase.Contents(), exampleTreated.Contents());
    OutcomesBeforeUpdates(exampleBase.Contents(), exampleTreated.Contents(), newBase.Contents(), allow, order);
    if treatment == map[] {
      r := NoTreatment;
    } else if Removes(treatment) {
      r := RemovesKeys;
    } else if Carries(treatment, nb) {
      r := AlreadyTreated;
    } else if DriftsBeyond(Delta(eb, nb), allow) {
      r := UnexpectedDrift;
    } else {
      r := CopyAndApply(exampleTreated, newBase, et, nb, treatment, keys, allow);
    }
    SameStops(r, DeriveIn(exampleBase.Contents(), exampleTreated.Contents(), newBase.Contents(), allow, order),
              eb, et, nb, allow);
  }
}
