/** Configuration documents, their flattened form, and what an update at a dotted path does to it. */
module ConfigPaths {
  import opened Wrappers

  /** A value that is not a mapping, by its printed form. */
  datatype Atom = Atom(printed: string)

  datatype Value = Leaf(atom: Atom) | Dict(doc: Doc)

  /** A mapping: its items in insertion order. */
  type Doc = seq<Item>

  datatype Item = Item(key: string, val: Value)

  type Flat = map<string, Atom>

  function Get(m: Flat, k: string): Option<Atom> {
    if k in m then Some(m[k]) else None
  }

  function Path(prefix: string, key: string): string {
    if prefix == "" then key else prefix + "." + key
  }

  function FlattenEntry(key: string, val: Value, prefix: string): Flat
    decreases val, 1
  {
    match val
    case Leaf(a) => map[Path(prefix, key) := a]
    case Dict(d) => Flatten(d, Path(prefix, key))
  }

  /** One item after the other; a later item overwrites an earlier one. */
  function Flatten(doc: Doc, prefix: string): Flat
    decreases doc, 0
  {
    if doc == [] then map[]
    else FlattenEntry(doc[0].key, doc[0].val, prefix) + Flatten(doc[1..], prefix)
  }

  // ----- well-formed documents -----

  predicate DotFree(key: string) {
    '.' !in key
  }

  predicate HasKey(doc: Doc, key: string) {
    exists i :: 0 <= i < |doc| && doc[i].key == key
  }

  predicate WellKeyedValue(val: Value)
    decreases val, 1
  {
    val.Dict? ==> WellKeyed(val.doc)
  }

  /** Distinct keys (it is a dictionary) without dots, at every depth. */
  predicate WellKeyed(doc: Doc)
    decreases doc, 0
  {
    doc == [] ||
    (DotFree(doc[0].key) && !HasKey(doc[1..], doc[0].key) && WellKeyedValue(doc[0].val) && WellKeyed(doc[1..]))
  }

  /** No mapping sits under the empty key, which the flattening would drop from the path. */
  predicate Rooted(doc: Doc) {
    forall i | 0 <= i < |doc| && doc[i].val.Dict? :: doc[i].key != ""
  }

  // ----- paths -----

  /** s is the path itself or continues it after a dot. */
  predicate Under(path: string, s: string) {
    s == path || path + "." <= s
  }

  predicate Beneath(path: string, s: string) {
    path + "." <= s
  }

  /** Everything before the first dot. */
  function Head(s: string): string {
    if s == "" || s[0] == '.' then "" else [s[0]] + Head(s[1..])
  }

  lemma {:induction false} HeadOfUnder(key: string, s: string)
    requires DotFree(key) && Under(key, s)
    ensures Head(s) == key
  {
    if key != "" {
      assert key[0] in key && forall c | c in key[1..] :: c in key;
      assert s[0] == key[0];
      if s != key {
        assert (key + ".")[1..] == key[1..] + ".";
        assert s[1..][..|key|] == s[..|key| + 1][1..] == key[1..] + ".";
      }
      HeadOfUnder(key[1..], s[1..]);
    }
  }

  /** Two different keys of one mapping never share a flattened key. */
  lemma SiblingsApart(prefix: string, k: string, l: string, s: string)
    requires DotFree(k) && DotFree(l) && Under(Path(prefix, k), s) && Under(Path(prefix, l), s)
    ensures k == l
  {
    if prefix == "" {
      HeadOfUnder(k, s);
      HeadOfUnder(l, s);
    } else {
      var cut := |prefix| + 1;
      UnderTail(prefix, k, s);
      UnderTail(prefix, l, s);
      HeadOfUnder(k, s[cut..]);
      HeadOfUnder(l, s[cut..]);
    }
  }

  lemma UnderTail(prefix: string, k: string, s: string)
    requires prefix != "" && Under(Path(prefix, k), s)
    ensures |s| >= |prefix| + 1 && Under(k, s[|prefix| + 1..])
  {
    var cut := |prefix| + 1;
    var p := prefix + "." + k;
    assert p[cut..] == k;
    if s != p {
      assert s[..|p| + 1] == p + ".";
      assert s[cut..][..|k| + 1] == s[..|p| + 1][cut..] == k + ".";
    }
  }

  lemma UnderDeeper(p: string, q: string, s: string)
    requires Under(p, q) && Under(q, s)
    ensures Under(p, s)
    ensures Beneath(p, q) ==> Beneath(p, s)
  {
  }

  lemma PathBeneath(prefix: string, k: string)
    requires prefix != ""
    ensures Beneath(prefix, Path(prefix, k))
  {
  }

  /** A flattened key lies under the path of the item it comes from. */
  lemma {:induction false} FlatUnderEntry(key: string, val: Value, prefix: string, s: string)
    requires s in FlattenEntry(key, val, prefix) && (prefix != "" || key != "" || val.Leaf?)
    ensures Under(Path(prefix, key), s)
    ensures val.Dict? ==> Beneath(Path(prefix, key), s)
    decreases val, 1
  {
    if val.Dict? {
      FlatBeneath(val.doc, Path(prefix, key), s);
    }
  }

  lemma {:induction false} FlatBeneath(doc: Doc, prefix: string, s: string)
    requires s in Flatten(doc, prefix) && prefix != ""
    ensures Beneath(prefix, s)
    decreases doc, 0
  {
    if s in Flatten(doc[1..], prefix) {
      FlatBeneath(doc[1..], prefix, s);
    } else {
      FlatUnderEntry(doc[0].key, doc[0].val, prefix, s);
      PathBeneath(prefix, doc[0].key);
      UnderDeeper(prefix, Path(prefix, doc[0].key), s);
    }
  }

  ghost predicate Sound(doc: Doc, prefix: string) {
    WellKeyed(doc) && (prefix != "" || Rooted(doc))
  }

  lemma SoundTail(doc: Doc, prefix: string)
    requires Sound(doc, prefix) && doc != []
    ensures Sound(doc[1..], prefix)
    ensures prefix != "" || doc[0].key != "" || doc[0].val.Leaf?
    ensures doc[0].val.Dict? ==> Sound(doc[0].val.doc, Path(prefix, doc[0].key)) && Path(prefix, doc[0].key) != ""
  {
    assert forall i | 0 <= i < |doc[1..]| :: doc[1..][i] == doc[i + 1];
    assert WellKeyedValue(doc[0].val);
  }

  /** Without the key, nothing lies under its path. */
  lemma {:induction false} NothingUnder(doc: Doc, prefix: string, key: string, s: string)
    requires Sound(doc, prefix) && DotFree(key) && !HasKey(doc, key) && Under(Path(prefix, key), s)
    ensures s !in Flatten(doc, prefix)
  {
    if doc != [] {
      SoundTail(doc, prefix);
      NotInTail(doc, key);
      NothingUnder(doc[1..], prefix, key, s);
      if s in FlattenEntry(doc[0].key, doc[0].val, prefix) {
        FlatUnderEntry(doc[0].key, doc[0].val, prefix, s);
        SiblingsApart(prefix, key, doc[0].key, s);
      }
    }
  }

  lemma NotInTail(doc: Doc, key: string)
    requires doc != []
    ensures HasKey(doc, key) <==> doc[0].key == key || HasKey(doc[1..], key)
  {
    assert forall i | 0 < i < |doc| :: doc[i] == doc[1..][i - 1];
  }

  // ----- set_path on values -----

  function Find(doc: Doc, key: string): Option<Value> {
    if doc == [] then None else if doc[0].key == key then Some(doc[0].val) else Find(doc[1..], key)
  }

  /** doc[key] = val: in place if the key is there, otherwise at the end. */
  function Put(doc: Doc, key: string, val: Value): Doc {
    if doc == [] then [Item(key, val)]
    else if doc[0].key == key then [Item(key, val)] + doc[1..]
    else [doc[0]] + Put(doc[1..], key, val)
  }

  /** The walk down finds a mapping for every part but the last. */
  predicate CanSet(doc: Doc, parts: seq<string>)
    requires parts != []
    decreases |parts|
  {
    |parts| == 1 || (var v := Find(doc, parts[0]); v.Some? && v.value.Dict? && CanSet(v.value.doc, parts[1..]))
  }

  function SetAt(doc: Doc, parts: seq<string>, a: Atom): Doc
    requires parts != [] && CanSet(doc, parts)
    decreases |parts|
  {
    if |parts| == 1 then Put(doc, parts[0], Leaf(a))
    else Put(doc, parts[0], Dict(SetAt(Find(doc, parts[0]).value.doc, parts[1..], a)))
  }

  lemma {:induction false} PutHasKey(doc: Doc, key: string, val: Value, l: string)
    ensures HasKey(Put(doc, key, val), l) <==> l == key || HasKey(doc, l)
    ensures Find(Put(doc, key, val), l) == if l == key then Some(val) else Find(doc, l)
  {
    NotInTail(Put(doc, key, val), l);
    if doc != [] {
      NotInTail(doc, l);
      if doc[0].key != key {
        assert Put(doc, key, val)[1..] == Put(doc[1..], key, val);
        PutHasKey(doc[1..], key, val, l);
      } else {
        assert Put(doc, key, val)[1..] == doc[1..];
      }
    } else {
      assert Put(doc, key, val)[1..] == [];
    }
  }

  lemma {:induction false} PutWellKeyed(doc: Doc, key: string, val: Value)
    requires WellKeyed(doc) && DotFree(key) && WellKeyedValue(val)
    ensures WellKeyed(Put(doc, key, val))
  {
    if doc == [] {
      assert Put(doc, key, val)[1..] == [];
    } else if doc[0].key != key {
      assert Put(doc, key, val)[1..] == Put(doc[1..], key, val);
      PutWellKeyed(doc[1..], key, val);
      PutHasKey(doc[1..], key, val, doc[0].key);
    } else {
      assert Put(doc, key, val)[1..] == doc[1..];
    }
  }

  lemma {:induction false} PutRooted(doc: Doc, key: string, val: Value)
    requires Rooted(doc) && (key != "" || val.Leaf?)
    ensures Rooted(Put(doc, key, val))
  {
    if doc != [] && doc[0].key != key {
      assert forall i | 0 <= i < |doc[1..]| :: doc[1..][i] == doc[i + 1];
      PutRooted(doc[1..], key, val);
    }
  }

  /** The flattened form of an item that is found in a mapping is the part of the whole that lies under its path. */
  lemma {:induction false} FindFlat(doc: Doc, prefix: string, key: string, s: string)
    requires Sound(doc, prefix) && DotFree(key) && Find(doc, key).Some? && Under(Path(prefix, key), s)
    ensures Get(Flatten(doc, prefix), s) == Get(FlattenEntry(key, Find(doc, key).value, prefix), s)
  {
    SoundTail(doc, prefix);
    if doc[0].key == key {
      NothingUnder(doc[1..], prefix, key, s);
    } else {
      FindFlat(doc[1..], prefix, key, s);
      if s in FlattenEntry(doc[0].key, doc[0].val, prefix) {
        FlatUnderEntry(doc[0].key, doc[0].val, prefix, s);
        SiblingsApart(prefix, key, doc[0].key, s);
      }
    }
  }

  /** Storing a value under a key replaces exactly what lies under the key's path. */
  lemma {:induction false} PutFlat(doc: Doc, prefix: string, key: string, val: Value, s: string)
    requires Sound(doc, prefix) && DotFree(key) && (prefix != "" || key != "" || val.Leaf?)
    ensures Get(Flatten(Put(doc, key, val), prefix), s)
         == if Under(Path(prefix, key), s) then Get(FlattenEntry(key, val, prefix), s) else Get(Flatten(doc, prefix), s)
  {
    var entry := FlattenEntry(key, val, prefix);
    if s in entry {
      FlatUnderEntry(key, val, prefix, s);
    }
    if doc == [] {
      assert Put(doc, key, val)[1..] == [];
    } else {
      SoundTail(doc, prefix);
      var first := FlattenEntry(doc[0].key, doc[0].val, prefix);
      if s in first {
        FlatUnderEntry(doc[0].key, doc[0].val, prefix, s);
      }
      if doc[0].key == key {
        assert Put(doc, key, val)[1..] == doc[1..];
        if Under(Path(prefix, key), s) {
          NothingUnder(doc[1..], prefix, key, s);
        }
      } else {
        assert Put(doc, key, val)[1..] == Put(doc[1..], key, val);
        PutFlat(doc[1..], prefix, key, val, s);
        if s in first && Under(Path(prefix, key), s) {
          SiblingsApart(prefix, key, doc[0].key, s);
        }
      }
    }
  }

  ghost predicate PartsDotFree(parts: seq<string>) {
    forall i | 0 <= i < |parts| :: DotFree(parts[i])
  }

  function PathOf(prefix: string, parts: seq<string>): string
    requires parts != []
    decreases |parts|
  {
    if |parts| == 1 then Path(prefix, parts[0]) else PathOf(Path(prefix, parts[0]), parts[1..])
  }

  lemma {:induction false} PathOfUnder(prefix: string, parts: seq<string>)
    requires parts != [] && prefix != ""
    ensures Beneath(prefix, PathOf(prefix, parts))
    decreases |parts|
  {
    PathBeneath(prefix, parts[0]);
    if |parts| > 1 {
      PathOfUnder(Path(prefix, parts[0]), parts[1..]);
      UnderDeeper(prefix, Path(prefix, parts[0]), PathOf(prefix, parts));
    }
  }

  lemma {:induction false} FindSound(doc: Doc, prefix: string, key: string)
    requires Sound(doc, prefix) && Find(doc, key).Some?
    ensures DotFree(key)
    ensures Find(doc, key).value.Dict? ==>
      Path(prefix, key) != "" && Sound(Find(doc, key).value.doc, Path(prefix, key)) && (prefix != "" || key != "")
  {
    SoundTail(doc, prefix);
    if doc[0].key != key {
      FindSound(doc[1..], prefix, key);
    }
  }

  /** What the update writes, key by key: the new value at the path, nothing beneath it, everything else as before. */
  lemma {:induction false} SetAtFlat(doc: Doc, prefix: string, parts: seq<string>, a: Atom, s: string)
    requires parts != [] && CanSet(doc, parts) && PartsDotFree(parts) && Sound(doc, prefix)
    ensures var p := PathOf(prefix, parts);
      Get(Flatten(SetAt(doc, parts, a), prefix), s)
        == if s == p then Some(a) else if Beneath(p, s) then None else Get(Flatten(doc, prefix), s)
    decreases |parts|
  {
    var key, p := parts[0], PathOf(prefix, parts);
    if |parts| == 1 {
      PutFlat(doc, prefix, key, Leaf(a), s);
    } else {
      var sub := Find(doc, key).value.doc;
      var inner := Path(prefix, key);
      FindSound(doc, prefix, key);
      SetAtFlat(sub, inner, parts[1..], a, s);
      PutFlat(doc, prefix, key, Dict(SetAt(sub, parts[1..], a)), s);
      PathOfUnder(inner, parts[1..]);
      if Under(inner, s) {
        FindFlat(doc, prefix, key, s);
      } else if Under(p, s) {
        UnderDeeper(inner, p, s);
      }
    }
  }

  /** The update keeps documents well formed. */
  lemma {:induction false} SetAtSound(doc: Doc, prefix: string, parts: seq<string>, a: Atom)
    requires parts != [] && CanSet(doc, parts) && PartsDotFree(parts) && Sound(doc, prefix)
    ensures Sound(SetAt(doc, parts, a), prefix)
    decreases |parts|
  {
    var key := parts[0];
    if |parts| == 1 {
      PutWellKeyed(doc, key, Leaf(a));
      if prefix == "" {
        PutRooted(doc, key, Leaf(a));
      }
    } else {
      FindSound(doc, prefix, key);
      SetAtSound(Find(doc, key).value.doc, Path(prefix, key), parts[1..], a);
      var val := Dict(SetAt(Find(doc, key).value.doc, parts[1..], a));
      PutWellKeyed(doc, key, val);
      if prefix == "" {
        PutRooted(doc, key, val);
      }
    }
  }

  // ----- path.split(".") -----

  function Split(path: string): (parts: seq<string>)
    ensures parts != []
  {
    if path == "" then [""]
    else
      var rest := Split(path[1..]);
      if path[0] == '.' then [""] + rest else [[path[0]] + rest[0]] + rest[1..]
  }

  function Join(parts: seq<string>): string
    requires parts != []
  {
    if |parts| == 1 then parts[0] else parts[0] + "." + Join(parts[1..])
  }

  lemma {:induction false} SplitJoins(path: string)
    ensures Join(Split(path)) == path && PartsDotFree(Split(path))
  {
    if path == "" {
      assert Split(path) == [""];
    } else {
      SplitJoins(path[1..]);
      var rest := Split(path[1..]);
      if path[0] == '.' {
        assert Split(path)[1..] == rest;
      } else {
        assert Split(path)[1..] == rest[1..];
        assert path == [path[0]] + path[1..];
      }
    }
  }

  lemma {:induction false} PathOfJoin(prefix: string, parts: seq<string>)
    requires parts != [] && (prefix != "" || parts[0] != "" || |parts| == 1)
    ensures PathOf(prefix, parts) == Path(prefix, Join(parts))
    decreases |parts|
  {
    if |parts| > 1 {
      PathOfJoin(Path(prefix, parts[0]), parts[1..]);
    }
  }

  /** Setting a dotted path that can be set addresses exactly that flattened key. */
  lemma PathIsSplit(doc: Doc, path: string)
    requires Sound(doc, "") && CanSet(doc, Split(path))
    ensures PathOf("", Split(path)) == path && PartsDotFree(Split(path))
  {
    SplitJoins(path);
    if |Split(path)| > 1 {
      FindSound(doc, "", Split(path)[0]);
    }
    PathOfJoin("", Split(path));
  }

  /** flatten(set_path(d, p, v)) = flatten(d)[p := v], exactly when no flattened key lies beneath p. */
  lemma LensLaw(doc: Doc, path: string, a: Atom)
    requires Sound(doc, "") && CanSet(doc, Split(path))
    ensures Flatten(SetAt(doc, Split(path), a), "") == Flatten(doc, "")[path := a]
      <==> forall s | s in Flatten(doc, "") :: !Beneath(path, s)
  {
    PathIsSplit(doc, path);
    var before, after := Flatten(doc, ""), Flatten(SetAt(doc, Split(path), a), "");
    forall s
      ensures Get(after, s) == if s == path then Some(a) else if Beneath(path, s) then None else Get(before, s)
    {
      SetAtFlat(doc, "", Split(path), a, s);
    }
    if after == before[path := a] {
      forall s | s in before
        ensures !Beneath(path, s)
      {
        assert Get(before[path := a], s).Some?;
        assert Beneath(path, s) ==> s != path;
      }
    }
    if forall s | s in before :: !Beneath(path, s) {
      SameGets(after, before[path := a]);
    }
  }

  lemma SameGets(m: Flat, n: Flat)
    ensures (forall s :: Get(m, s) == Get(n, s)) ==> m == n
  {
    if forall s :: Get(m, s) == Get(n, s) {
      assert forall s :: s in m <==> Get(m, s).Some?;
      assert forall s :: s in n <==> Get(n, s).Some?;
    }
  }

  // ----- documents as nested lookups -----

  /** What doc[parts[0]][parts[1]]... finds. */
  function ValueAt(doc: Doc, parts: seq<string>): Option<Value>
    requires parts != []
    decreases |parts|
  {
    var v := Find(doc, parts[0]);
    if |parts| == 1 then v
    else if v.Some? && v.value.Dict? then ValueAt(v.value.doc, parts[1..])
    else None
  }

  function LeafOf(v: Option<Value>): Option<Atom> {
    if v.Some? && v.value.Leaf? then Some(v.value.atom) else None
  }

  predicate IsMapping(v: Option<Value>) {
    v.Some? && v.value.Dict?
  }

  /** Looking up a key finds exactly the item that has it. */
  lemma {:induction false} FindIsItem(doc: Doc, key: string, v: Value)
    requires WellKeyed(doc)
    ensures Find(doc, key) == Some(v) <==> Item(key, v) in doc
  {
    if doc != [] {
      FindIsItem(doc[1..], key, v);
      assert doc == [doc[0]] + doc[1..];
      assert Item(key, v) in doc[1..] ==> HasKey(doc[1..], key);
    }
  }

  lemma {:induction false} NotFound(doc: Doc, key: string)
    ensures Find(doc, key).None? <==> !HasKey(doc, key)
  {
    if doc != [] {
      NotFound(doc[1..], key);
      NotInTail(doc, key);
    }
  }

  lemma {:induction false} FlattenAtPath(doc: Doc, prefix: string, parts: seq<string>)
    requires Sound(doc, prefix) && parts != [] && PartsDotFree(parts)
    requires prefix != "" || parts[0] != "" || |parts| == 1
    ensures Get(Flatten(doc, prefix), PathOf(prefix, parts)) == LeafOf(ValueAt(doc, parts))
    decreases |parts|
  {
    var key, s := parts[0], PathOf(prefix, parts);
    var path := Path(prefix, key);
    assert DotFree(key);
    if |parts| > 1 {
      assert path != "";
      PathOfUnder(path, parts[1..]);
      assert s != path;
    }
    NotFound(doc, key);
    if Find(doc, key).None? {
      NothingUnder(doc, prefix, key, s);
    } else {
      FindFlat(doc, prefix, key, s);
      FindSound(doc, prefix, key);
      match Find(doc, key).value
      case Leaf(_) =>
      case Dict(sub) =>
        if |parts| > 1 {
          assert forall i | 0 <= i < |parts[1..]| :: parts[1..][i] == parts[i + 1];
          FlattenAtPath(sub, path, parts[1..]);
        } else if path in Flatten(sub, path) {
          FlatBeneath(sub, path, path);
        }
    }
  }

  /** The flattened document is the document, looked up along split paths. */
  lemma FlattenIsLookup(doc: Doc, s: string)
    requires Sound(doc, "")
    ensures Get(Flatten(doc, ""), s) == LeafOf(ValueAt(doc, Split(s)))
  {
    var parts := Split(s);
    SplitJoins(s);
    if parts[0] != "" || |parts| == 1 {
      PathOfJoin("", parts);
      FlattenAtPath(doc, "", parts);
    } else {
      assert s == "" + "." + Join(parts[1..]);
      assert "" + "." <= s;
      NotFound(doc, "");
      if Find(doc, "").None? {
        NothingUnder(doc, "", "", s);
      } else {
        FindFlat(doc, "", "", s);
        FindSound(doc, "", "");
      }
    }
  }

  /** A path can be set exactly when all its beginnings are mappings. */
  lemma {:induction false} CanSetIsMappings(doc: Doc, parts: seq<string>)
    requires parts != []
    ensures CanSet(doc, parts) <==> forall n | 0 < n < |parts| :: IsMapping(ValueAt(doc, parts[..n]))
    decreases |parts|
  {
    if |parts| > 1 {
      var v, rest := Find(doc, parts[0]), parts[1..];
      assert parts[..1] == [parts[0]];
      if IsMapping(v) {
        CanSetIsMappings(v.value.doc, rest);
        forall n | 1 < n < |parts|
          ensures ValueAt(doc, parts[..n]) == ValueAt(v.value.doc, rest[..n - 1])
        {
          assert parts[..n][1..] == rest[..n - 1] && parts[..n][0] == parts[0];
        }
        if CanSet(doc, parts) {
          forall n | 0 < n < |parts|
            ensures IsMapping(ValueAt(doc, parts[..n]))
          {
            assert n > 1 ==> 0 < n - 1 < |rest|;
          }
        } else {
          var n :| 0 < n < |rest| && !IsMapping(ValueAt(v.value.doc, rest[..n]));
          assert !IsMapping(ValueAt(doc, parts[..n + 1]));
        }
      } else {
        assert !IsMapping(ValueAt(doc, parts[..1]));
      }
    }
  }

  lemma {:induction false} FindPut(doc: Doc, key: string, val: Value, l: string)
    ensures Find(Put(doc, key, val), l) == if l == key then Some(val) else Find(doc, l)
  {
    if doc == [] {
      assert Put(doc, key, val)[1..] == [];
    } else if doc[0].key == key {
      assert Put(doc, key, val)[1..] == doc[1..];
    } else {
      assert Put(doc, key, val)[1..] == Put(doc[1..], key, val);
      FindPut(doc[1..], key, val, l);
    }
  }

  /** Afterwards the path holds the value, nothing lies beyond it, and what it does not meet is as before. */
  lemma {:induction false} SetAtValue(doc: Doc, parts: seq<string>, a: Atom, q: seq<string>)
    requires parts != [] && q != [] && CanSet(doc, parts)
    ensures parts == q ==> ValueAt(SetAt(doc, parts, a), q) == Some(Leaf(a))
    ensures parts <= q && parts != q ==> ValueAt(SetAt(doc, parts, a), q) == None
    ensures !(parts <= q) && !(q <= parts) ==> ValueAt(SetAt(doc, parts, a), q) == ValueAt(doc, q)
    decreases |parts|
  {
    var key := parts[0];
    assert parts == [key] + parts[1..] && q == [q[0]] + q[1..];
    if |parts| == 1 {
      FindPut(doc, key, Leaf(a), q[0]);
    } else {
      var sub := Find(doc, key).value.doc;
      FindPut(doc, key, Dict(SetAt(sub, parts[1..], a)), q[0]);
      if q[0] == key && |q| > 1 {
        SetAtValue(sub, parts[1..], a, q[1..]);
      }
    }
  }

  // ----- a path that is a mapping -----

  /** {"a": {"b": v}} */
  function NestedDoc(v: Atom): Doc {
    [Item("a", Dict([Item("b", Leaf(v))]))]
  }

  lemma NestedFlat(v: Atom)
    ensures Sound(NestedDoc(v), "") && Flatten(NestedDoc(v), "") == map["a.b" := v]
  {
    var inner := [Item("b", Leaf(v))];
    assert inner[1..] == [] && NestedDoc(v)[1..] == [];
    assert Path("a", "b") == "a.b";
    assert Flatten(inner, "a") == map["a.b" := v];
    assert WellKeyed(inner);
  }

  lemma SplitSingle()
    ensures Split("a") == ["a"] && Beneath("a", "a.b")
  {
    var rest := Split("");
    assert "a"[1..] == "" && rest == [""] && rest[1..] == [];
    assert ['a'] + rest[0] == "a";
    assert Split("a") == [['a'] + rest[0]] + rest[1..];
    assert "a" + "." <= "a.b";
  }

  /** Setting "a" in {"a": {"b": v}} drops "a.b". */
  lemma LensLawCanFail(v: Atom, a: Atom)
    ensures var doc := NestedDoc(v);
      && Sound(doc, "") && CanSet(doc, Split("a"))
      && Flatten(SetAt(doc, Split("a"), a), "") != Flatten(doc, "")["a" := a]
  {
    NestedFlat(v);
    SplitSingle();
    LensLaw(NestedDoc(v), "a", a);
    assert "a.b" in Flatten(NestedDoc(v), "");
  }
}
