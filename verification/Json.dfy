/** JSON objects: the key paths to their leaves, and the edit of a single leaf. */
module Json {
  import opened Common
  import Campaign
  import CampaignPlan

  type Path = Campaign.Field

  /** An object is a list of entries; a valid one has no key twice. */
  datatype Object = Empty | Entry(key: string, value: Value, rest: Object)

  datatype Value =
    | Null
    | Bool(b: bool)
    | Number(n: real)
    | Text(s: string)
    | Array(items: seq<Value>)
    | Nested(o: Object)

  datatype Tree = Tree(name: string, children: seq<Tree>)

  // ----- objects as maps

  function Lookup(o: Object, key: string): Option<Value> {
    match o
    case Empty => None
    case Entry(k, v, rest) => if k == key then Some(v) else Lookup(rest, key)
  }

  /** Replaces the value of a key, or adds the key. */
  function Insert(o: Object, key: string, value: Value): Object {
    match o
    case Empty => Entry(key, value, Empty)
    case Entry(k, v, rest) => if k == key then Entry(k, value, rest) else Entry(k, v, Insert(rest, key, value))
  }

  predicate Valid(o: Object) {
    match o
    case Empty => true
    case Entry(k, v, rest) => Lookup(rest, k).None? && (v.Nested? ==> Valid(v.o)) && Valid(rest)
  }

  lemma {:induction false} LookupInsert(o: Object, key: string, value: Value, k: string)
    ensures Lookup(Insert(o, key, value), k) == if k == key then Some(value) else Lookup(o, k)
  {
    if o.Entry? {
      LookupInsert(o.rest, key, value, k);
    }
  }

  lemma {:induction false} InsertValid(o: Object, key: string, value: Value)
    requires Valid(o) && (value.Nested? ==> Valid(value.o))
    ensures Valid(Insert(o, key, value))
  {
    if o.Entry? && o.key != key {
      InsertValid(o.rest, key, value);
      LookupInsert(o.rest, key, value, o.key);
    }
  }

  lemma {:induction false} LookupValid(o: Object, key: string)
    requires Valid(o) && Lookup(o, key).Some? && Lookup(o, key).value.Nested?
    ensures Valid(Lookup(o, key).value.o)
  {
    if o.Entry? && o.key != key {
      LookupValid(o.rest, key);
    }
  }

  // ----- what a path leads to

  function At(o: Object, path: Path): Option<Value>
    decreases |path|
  {
    if path == [] then None
    else
      var v := Lookup(o, path[0]);
      if v.None? || |path| == 1 then v
      else if v.value.Nested? then At(v.value.o, path[1..])
      else None
  }

  predicate IsLeaf(o: Object, path: Path) {
    At(o, path).Some? && !At(o, path).value.Nested?
  }

  // ----- all leaf paths

  function Prefixed(key: string, paths: seq<Path>): (r: seq<Path>)
    ensures |r| == |paths| && forall k | 0 <= k < |paths| :: r[k] == [key] + paths[k]
  {
    if paths == [] then [] else Prefixed(key, paths[..|paths| - 1]) + [[key] + paths[|paths| - 1]]
  }

  function Paths(o: Object): seq<Path> {
    match o
    case Empty => []
    case Entry(k, v, rest) => (if v.Nested? then Prefixed(k, Paths(v.o)) else [[k]]) + Paths(rest)
  }

  function Children(o: Object): seq<Tree> {
    match o
    case Empty => []
    case Entry(k, v, rest) => [Tree(k, if v.Nested? then Children(v.o) else [])] + Children(rest)
  }

  // ----- the label tree

  /** A label path of the trees. */
  predicate HasNode(ts: seq<Tree>, path: Path)
    decreases |path|
  {
    && path != []
    && exists k :: 0 <= k < |ts| && ts[k].name == path[0] && (|path| == 1 || HasNode(ts[k].children, path[1..]))
  }

  /** The keys of an object in their order. */
  function Keys(o: Object): seq<string> {
    match o
    case Empty => []
    case Entry(k, _, rest) => [k] + Keys(rest)
  }

  function Names(ts: seq<Tree>): seq<string> {
    seq(|ts|, k requires 0 <= k < |ts| => ts[k].name)
  }

  /** The tree of an object has a node for every key path to a value, be it an object or not, and for no other. */
  lemma {:induction false} TreeMirrors(o: Object, path: Path)
    requires Valid(o)
    ensures HasNode(Children(o), path) <==> At(o, path).Some?
    decreases o
  {
    if o.Entry? && path != [] {
      var t := Tree(o.key, if o.value.Nested? then Children(o.value.o) else []);
      NodeOfEntry(t, Children(o.rest), path);
      if path[0] != o.key {
        TreeMirrors(o.rest, path);
        OtherKey(o, path);
      } else {
        NoNode(o.rest, path);
        if |path| > 1 && o.value.Nested? {
          TreeMirrors(o.value.o, path[1..]);
        }
      }
    }
  }

  lemma {:induction false} OtherKey(o: Object, path: Path)
    requires o.Entry? && path != [] && path[0] != o.key
    ensures At(o, path) == At(o.rest, path)
  {
  }

  /** The nodes of an object are its keys in order, each once. */
  lemma {:induction false} NodesAreKeys(o: Object)
    requires Valid(o)
    ensures Names(Children(o)) == Keys(o)
    ensures forall j, k | 0 <= j < k < |Children(o)| :: Children(o)[j].name != Children(o)[k].name
  {
    if o.Entry? {
      NodesAreKeys(o.rest);
      NamesLookup(o.rest);
      var t := Tree(o.key, if o.value.Nested? then Children(o.value.o) else []);
      assert Children(o) == [t] + Children(o.rest);
      assert Names(Children(o)) == [t.name] + Names(Children(o.rest));
    }
  }

  lemma {:induction false} NodeOfEntry(t: Tree, rest: seq<Tree>, path: Path)
    requires path != []
    ensures HasNode([t] + rest, path)
      <==> (t.name == path[0] && (|path| == 1 || HasNode(t.children, path[1..]))) || HasNode(rest, path)
  {
    var ts := [t] + rest;
    if HasNode(rest, path) {
      var k :| 0 <= k < |rest| && rest[k].name == path[0] && (|path| == 1 || HasNode(rest[k].children, path[1..]));
      assert ts[k + 1] == rest[k];
    }
    if t.name == path[0] && (|path| == 1 || HasNode(t.children, path[1..])) {
      assert ts[0] == t;
    }
    if HasNode(ts, path) {
      var k :| 0 <= k < |ts| && ts[k].name == path[0] && (|path| == 1 || HasNode(ts[k].children, path[1..]));
      assert k > 0 ==> rest[k - 1] == ts[k];
    }
  }

  lemma {:induction false} NamesLookup(o: Object)
    requires Valid(o)
    ensures forall k | 0 <= k < |Children(o)| :: Lookup(o, Children(o)[k].name).Some?
  {
    if o.Entry? {
      NamesLookup(o.rest);
    }
  }

  lemma {:induction false} NoNode(o: Object, path: Path)
    requires Valid(o) && path != [] && Lookup(o, path[0]).None?
    ensures !HasNode(Children(o), path)
  {
    NamesLookup(o);
  }

  method AppendPrefixed(fields: seq<Path>, key: string, nested: seq<Path>) returns (r: seq<Path>)
    ensures r == fields + Prefixed(key, nested)
  {
    r := fields;
    for i := 0 to |nested|
      invariant r == fields + Prefixed(key, nested[..i])
    {
      assert nested[..i + 1][..i] == nested[..i];
      r := r + [[key] + nested[i]];
    }
    assert nested[..|nested|] == nested;
  }

  /** The label tree and the list of leaf paths, entry by entry. */
  method MapIntoStringTree(root: string, o: Object) returns (tree: Tree, fields: seq<Path>)
    ensures tree == Tree(root, Children(o))
    ensures fields == Paths(o)
    decreases o
  {
    var children: seq<Tree> := [];
    fields := [];
    var left := o;
    while left.Entry?
      invariant left == o || left < o
      invariant children + Children(left) == Children(o)
      invariant fields + Paths(left) == Paths(o)
      decreases left
    {
      ghost var k, v, rest := left.key, left.value, left.rest;
      Reassociate(children, [Tree(k, if v.Nested? then Children(v.o) else [])], Children(rest));
      Reassociate(fields, if v.Nested? then Prefixed(k, Paths(v.o)) else [[k]], Paths(rest));
      if left.value.Nested? {
        var t, nested := MapIntoStringTree(left.key, left.value.o);
        fields := AppendPrefixed(fields, left.key, nested);
        children := children + [t];
      } else {
        fields := fields + [[left.key]];
        children := children + [Tree(left.key, [])];
      }
      left := left.rest;
    }
    tree := Tree(root, children);
  }

  lemma Reassociate<T>(a: seq<T>, b: seq<T>, c: seq<T>)
    ensures a + (b + c) == (a + b) + c
  {
  }

  /** A leaf path of an entry's object starts with its key. */
  lemma EntryLeaf(k: string, v: Value, rest: Object, path: Path)
    requires path != []
    ensures path[0] == k ==>
      (IsLeaf(Entry(k, v, rest), path) <==> if v.Nested? then |path| > 1 && IsLeaf(v.o, path[1..]) else path == [k])
    ensures path[0] != k ==> (IsLeaf(Entry(k, v, rest), path) <==> IsLeaf(rest, path))
  {
  }

  lemma {:induction false} PathsAreLeaves(o: Object, path: Path)
    requires Valid(o)
    ensures path in Paths(o) <==> IsLeaf(o, path)
    decreases o
  {
    if o.Entry? {
      PathsAreLeaves(o.rest, path);
      if path != [] {
        EntryLeaf(o.key, o.value, o.rest, path);
        if o.value.Nested? {
          PathsAreLeaves(o.value.o, path[1..]);
          InPrefixed(o.key, Paths(o.value.o), path);
        }
      } else if o.value.Nested? {
        InPrefixed(o.key, Paths(o.value.o), path);
      }
    }
  }

  lemma {:induction false} InPrefixed(key: string, paths: seq<Path>, path: Path)
    ensures path in Prefixed(key, paths) <==> path != [] && path[0] == key && path[1..] in paths
  {
    if path != [] && path[0] == key && path[1..] in paths {
      var k :| 0 <= k < |paths| && paths[k] == path[1..];
      assert Prefixed(key, paths)[k] == path;
    }
    if path in Prefixed(key, paths) {
      var k :| 0 <= k < |paths| && Prefixed(key, paths)[k] == path;
      assert path[1..] == paths[k];
    }
  }

  lemma {:induction false} PrefixedDistinct(key: string, paths: seq<Path>)
    requires CampaignPlan.Distinct(paths)
    ensures CampaignPlan.Distinct(Prefixed(key, paths))
  {
    forall i, j | 0 <= i < j < |paths| ensures Prefixed(key, paths)[i] != Prefixed(key, paths)[j] {
      assert Prefixed(key, paths)[i][1..] == paths[i] && Prefixed(key, paths)[j][1..] == paths[j];
    }
  }

  lemma {:induction false} PathsDistinct(o: Object)
    requires Valid(o)
    ensures CampaignPlan.Distinct(Paths(o))
  {
    if o.Entry? {
      PathsDistinct(o.rest);
      var own := if o.value.Nested? then Prefixed(o.key, Paths(o.value.o)) else [[o.key]];
      if o.value.Nested? {
        PathsDistinct(o.value.o);
        PrefixedDistinct(o.key, Paths(o.value.o));
      }
      forall x | x in own ensures x !in Paths(o.rest) {
        if o.value.Nested? {
          InPrefixed(o.key, Paths(o.value.o), x);
        }
        PathsAreLeaves(o.rest, x);
      }
      CampaignPlan.DistinctConcat(own, Paths(o.rest));
    }
  }

  /** Every non-empty key path to a value that is not an object is listed exactly once, and nothing
      else is. */
  lemma {:induction false} PathsExact(o: Object, path: Path)
    requires Valid(o)
    ensures multiset(Paths(o))[path] == if IsLeaf(o, path) then 1 else 0
    ensures path in Paths(o) ==> path != []
  {
    PathsAreLeaves(o, path);
    PathsDistinct(o);
    Multiplicity(Paths(o), path);
  }

  lemma {:induction false} Multiplicity(paths: seq<Path>, path: Path)
    requires CampaignPlan.Distinct(paths)
    ensures multiset(paths)[path] == if path in paths then 1 else 0
  {
    if paths != [] {
      var front, last := paths[..|paths| - 1], paths[|paths| - 1];
      assert paths == front + [last];
      Multiplicity(front, path);
    }
  }

  /** Field lists taken from valid objects with a leaf are what a probing campaign needs: known, and
      without repetition. */
  lemma FieldsKnown(objects: seq<Object>, fields: map<nat, seq<Path>>, maxPhase: nat)
    requires |objects| == maxPhase
    requires forall p | 1 <= p <= maxPhase ::
      Valid(objects[p - 1]) && p in fields && fields[p] == Paths(objects[p - 1]) && fields[p] != []
    ensures Campaign.Known(fields, 1, maxPhase)
    ensures forall p | 1 <= p <= maxPhase :: CampaignPlan.Distinct(fields[p])
  {
    forall p | 1 <= p <= maxPhase ensures CampaignPlan.Distinct(fields[p]) {
      assert p in fields;
      PathsDistinct(objects[p - 1]);
    }
    forall p, k | 1 <= p <= maxPhase && 0 <= k < |fields[p]| ensures fields[p][k] != [] {
      PathsExact(objects[p - 1], fields[p][k]);
    }
  }

  // ----- the edit of one leaf

  const ERROR_ITEMS := [Text("E"), Text("R"), Text("R"), Text("O"), Text("R")]

  function Altered(v: Value): Value {
    match v
    case Null => Null
    case Bool(b) => Bool(!b)
    case Number(n) => Number(n + 99.0)
    case Text(_) => Text("ErrorString")
    case Array(_) => Array(ERROR_ITEMS)
    case Nested(o) => Nested(o)
  }

  /** What the edit makes of each kind of value. */
  lemma AltersExactly(v: Value)
    ensures
      match v
      case Null => Altered(v) == v
      case Bool(b) => Altered(v).Bool? && Altered(v).b != b
      case Number(n) => Altered(v).Number? && Altered(v).n - n == 99.0
      case Text(_) => Altered(v) == Text("ErrorString")
      case Array(_) => Altered(v) == Array([Text("E"), Text("R"), Text("R"), Text("O"), Text("R")])
      case Nested(_) => Altered(v) == v
  {
  }

  /** In exact arithmetic, the edit changes a value unless it is null, an object or already the error
      value. */
  lemma AlteredDiffers(v: Value)
    ensures Altered(v) != v <==> !(v.Null? || v.Nested? || v == Text("ErrorString") || v == Array(ERROR_ITEMS))
    ensures Altered(v).Nested? <==> v.Nested?
  {
  }

  /** None is a panic: an empty path, a missing key or a step through a value that is no object. */
  function ModifyWithField(o: Object, field: Path): Option<Object>
    decreases |field|
  {
    if field == [] then None
    else
      var v := Lookup(o, field[0]);
      if v.None? then None
      else if |field| == 1 then Some(Insert(o, field[0], Altered(v.value)))
      else if !v.value.Nested? then None
      else
        var next := ModifyWithField(v.value.o, field[1..]);
        if next.None? then None else Some(Insert(o, field[0], Nested(next.value)))
  }

  /** The edit succeeds exactly if the path leads somewhere, and alters the value there. */
  lemma {:induction false} ModifyHits(o: Object, field: Path)
    ensures ModifyWithField(o, field).Some? <==> At(o, field).Some?
    ensures At(o, field).Some? ==>
      At(ModifyWithField(o, field).value, field) == Some(Altered(At(o, field).value))
    decreases |field|
  {
    if field != [] && Lookup(o, field[0]).Some? {
      var v := Lookup(o, field[0]).value;
      if |field| == 1 {
        LookupInsert(o, field[0], Altered(v), field[0]);
      } else if v.Nested? {
        ModifyHits(v.o, field[1..]);
        var next := ModifyWithField(v.o, field[1..]);
        if next.Some? {
          LookupInsert(o, field[0], Nested(next.value), field[0]);
        }
      }
    }
  }

  /** Any other path leads to the same value as before, or to an object in both. */
  lemma {:induction false} ModifySpares(o: Object, field: Path, path: Path)
    requires IsLeaf(o, field) && path != field
    ensures var o' := ModifyWithField(o, field);
      && o'.Some?
      && (At(o'.value, path) == At(o, path)
          || (At(o'.value, path).Some? && At(o, path).Some? && At(o'.value, path).value.Nested?
              && At(o, path).value.Nested?))
    decreases |field|
  {
    ModifyHits(o, field);
    var v := Lookup(o, field[0]).value;
    var o' := ModifyWithField(o, field).value;
    if |field| == 1 {
      if path != [] {
        LookupInsert(o, field[0], Altered(v), path[0]);
      }
    } else {
      var next := ModifyWithField(v.o, field[1..]).value;
      if path != [] {
        LookupInsert(o, field[0], Nested(next), path[0]);
        if path[0] == field[0] && |path| > 1 {
          assert path == [path[0]] + path[1..] && field == [field[0]] + field[1..];
          ModifySpares(v.o, field[1..], path[1..]);
        }
      }
    }
  }

  lemma {:induction false} ModifyValid(o: Object, field: Path)
    requires Valid(o) && ModifyWithField(o, field).Some?
    ensures Valid(ModifyWithField(o, field).value)
    decreases |field|
  {
    var v := Lookup(o, field[0]).value;
    if v.Nested? {
      LookupValid(o, field[0]);
    }
    if |field| == 1 {
      InsertValid(o, field[0], Altered(v));
    } else {
      ModifyValid(v.o, field[1..]);
      InsertValid(o, field[0], Nested(ModifyWithField(v.o, field[1..]).value));
    }
  }

  /** The edit of any listed path succeeds, alters that leaf, leaves the value at every other leaf path
      unchanged and keeps the same paths. */
  lemma {:induction false} SingleLeafEdit(o: Object, field: Path, path: Path)
    requires Valid(o) && field in Paths(o)
    ensures var o' := ModifyWithField(o, field);
      && o'.Some? && Valid(o'.value)
      && At(o, field).Some? && At(o'.value, field) == Some(Altered(At(o, field).value))
      && (path in Paths(o'.value) <==> path in Paths(o))
      && (path in Paths(o) && path != field ==> At(o'.value, path) == At(o, path))
  {
    PathsAreLeaves(o, field);
    ModifyHits(o, field);
    ModifyValid(o, field);
    var o' := ModifyWithField(o, field).value;
    PathsAreLeaves(o, path);
    PathsAreLeaves(o', path);
    if path != field {
      ModifySpares(o, field, path);
    }
  }
}
