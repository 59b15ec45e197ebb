/**
  flattenJSON of internal/parser/json.go:36-57: nested objects become dotted
  keys in one shared record.  Go ranges over each object in an order of its own
  choosing; the model allows every order.
  */
module JsonFlattener {
  import opened Strings
  import opened TextParser

  /** A decoded JSON value.  Numbers and arrays carry the text Go formats them as. */
  datatype Json =
    | Null
    | Str(s: string)
    | Number(text: string)
    | Bool(b: bool)
    | Other(text: string)
    | Object(fields: map<string, Json>)

  function KeyUnder(prefix: string, k: string): string {
    if prefix != "" then prefix + "." + NormalizeKey(k) else NormalizeKey(k)
  }

  function TextOf(v: Json): string
    requires !v.Null? && !v.Object?
  {
    match v
    case Str(s) => s
    case Number(text) => text
    case Bool(b) => if b then "true" else "false"
    case Other(text) => text
  }

  // ---------------------------------------------------------------------------
  // All the ways the loop can run
  // ---------------------------------------------------------------------------

  /** From record r0, visiting the keys in `todo` in some order can end in r1. */
  ghost predicate Run(prefix: string, obj: Json, todo: set<string>, r0: Record, r1: Record)
    requires obj.Object? && todo <= obj.fields.Keys
    decreases obj, 0, |todo|
  {
    if todo == {} then r1 == r0
    else exists k, r :: RunFirst(prefix, obj, todo, k, r0, r, r1)
  }

  ghost predicate RunFirst(prefix: string, obj: Json, todo: set<string>, k: string, r0: Record, r: Record, r1: Record)
    requires obj.Object? && todo <= obj.fields.Keys
    decreases obj, 0, |todo|, 0
  {
    k in todo && RunValue(KeyUnder(prefix, k), obj.fields[k], r0, r) && Run(prefix, obj, todo - {k}, r, r1)
  }

  ghost predicate RunValue(key: string, v: Json, r0: Record, r1: Record)
    decreases v, 1
  {
    match v
    case Null => r1 == r0
    case Object(fields) => Run(key, v, fields.Keys, r0, r1)
    case _ => r1 == r0[key := TextOf(v)]
  }

  /** The shared record rec, a map written in place. */
  class SharedRecord {
    var entries: Record
    constructor ()
      ensures entries == map[]
    {
      entries := map[];
    }
  }

  method FlattenJSON(prefix: string, obj: Json, rec: SharedRecord)
    requires obj.Object?
    modifies rec
    ensures Run(prefix, obj, obj.fields.Keys, old(rec.entries), rec.entries)
    decreases obj
  {
    var todo := obj.fields.Keys;
    while todo != {}
      invariant todo <= obj.fields.Keys
      invariant forall r1 :: Run(prefix, obj, todo, rec.entries, r1) ==>
                               Run(prefix, obj, obj.fields.Keys, old(rec.entries), r1)
      decreases todo
    {
      var k :| k in todo;
      var key := NormalizeKey(k);
      if prefix != "" {
        key := prefix + "." + key;
      }
      ghost var before := rec.entries;
      match obj.fields[k] {
        case Object(_) => FlattenJSON(key, obj.fields[k], rec);
        case Null =>
        case Str(s) => rec.entries := rec.entries[key := s];
        case Number(text) => rec.entries := rec.entries[key := text];
        case Bool(b) => rec.entries := rec.entries[key := if b then "true" else "false"];
        case Other(text) => rec.entries := rec.entries[key := text];
      }
      assert RunValue(KeyUnder(prefix, k), obj.fields[k], before, rec.entries);
      forall r1 | Run(prefix, obj, todo - {k}, rec.entries, r1)
        ensures Run(prefix, obj, todo, before, r1)
      {
        assert RunFirst(prefix, obj, todo, k, before, rec.entries, r1);
      }
      todo := todo - {k};
    }
  }

  // ---------------------------------------------------------------------------
  // Leaves: what the loop can write
  // ---------------------------------------------------------------------------

  type Leaf = (string, string)

  /** The dotted keys and texts of the non-null leaves below the given keys. */
  function Leaves(prefix: string, obj: Json, todo: set<string>): set<Leaf>
    requires obj.Object? && todo <= obj.fields.Keys
    decreases obj, 0
  {
    set k, leaf | k in todo && leaf in ValueLeaves(KeyUnder(prefix, k), obj.fields[k]) :: leaf
  }

  function ValueLeaves(key: string, v: Json): set<Leaf>
    decreases v, 1
  {
    match v
    case Null => {}
    case Object(fields) => Leaves(key, v, fields.Keys)
    case _ => {(key, TextOf(v))}
  }

  ghost predicate Names(leaves: set<Leaf>, name: string) {
    exists text :: (name, text) in leaves
  }

  /** r1 extends r0 by the leaves, choosing one of them where several share a name. */
  ghost predicate Extends(r0: Record, leaves: set<Leaf>, r1: Record) {
    && (forall name :: name in r1 <==> name in r0 || Names(leaves, name))
    && (forall name :: name in r1 && Names(leaves, name) ==> (name, r1[name]) in leaves)
    && (forall name :: name in r0 && !Names(leaves, name) ==> r1[name] == r0[name])
  }

  lemma ExtendsTwice(r0: Record, a: set<Leaf>, r: Record, b: set<Leaf>, r1: Record)
    requires Extends(r0, a, r) && Extends(r, b, r1)
    ensures Extends(r0, a + b, r1)
  {
    forall name
      ensures Names(a + b, name) <==> Names(a, name) || Names(b, name)
    {
      if text :| (name, text) in a + b { assert (name, text) in a || (name, text) in b; }
      if text :| (name, text) in a { assert (name, text) in a + b; }
      if text :| (name, text) in b { assert (name, text) in a + b; }
    }
  }

  lemma LeavesSplit(prefix: string, obj: Json, todo: set<string>, k: string)
    requires obj.Object? && k in todo && todo <= obj.fields.Keys
    ensures Leaves(prefix, obj, todo)
            == ValueLeaves(KeyUnder(prefix, k), obj.fields[k]) + Leaves(prefix, obj, todo - {k})
  {
    assert todo == (todo - {k}) + {k};
  }

  /** Whatever the order, the record is extended by the leaves and nothing else. */
  lemma {:induction false} RunExtends(prefix: string, obj: Json, todo: set<string>, r0: Record, r1: Record)
    requires obj.Object? && todo <= obj.fields.Keys && Run(prefix, obj, todo, r0, r1)
    ensures Extends(r0, Leaves(prefix, obj, todo), r1)
    decreases obj, 0, |todo|
  {
    if todo == {} {
      assert Leaves(prefix, obj, todo) == {};
    } else {
      var k, r :| RunFirst(prefix, obj, todo, k, r0, r, r1);
      RunValueExtends(KeyUnder(prefix, k), obj.fields[k], r0, r);
      RunExtends(prefix, obj, todo - {k}, r, r1);
      LeavesSplit(prefix, obj, todo, k);
      ExtendsTwice(r0, ValueLeaves(KeyUnder(prefix, k), obj.fields[k]), r, Leaves(prefix, obj, todo - {k}), r1);
    }
  }

  lemma {:induction false} RunValueExtends(key: string, v: Json, r0: Record, r1: Record)
    requires RunValue(key, v, r0, r1)
    ensures Extends(r0, ValueLeaves(key, v), r1)
    decreases v, 1
  {
    match v
    case Null =>
    case Object(fields) => RunExtends(key, v, fields.Keys, r0, r1);
    case _ =>
      assert forall name :: Names({(key, TextOf(v))}, name) <==> name == key by {
        assert (key, TextOf(v)) in {(key, TextOf(v))};
      }
  }

  // ---------------------------------------------------------------------------
  // Every leaf can be the last one written
  // ---------------------------------------------------------------------------

  lemma {:induction false} RunExists(prefix: string, obj: Json, todo: set<string>, r0: Record) returns (r1: Record)
    requires obj.Object? && todo <= obj.fields.Keys
    ensures Run(prefix, obj, todo, r0, r1)
    decreases obj, 0, |todo|
  {
    if todo == {} {
      r1 := r0;
    } else {
      var k :| k in todo;
      var r := RunValueExists(KeyUnder(prefix, k), obj.fields[k], r0);
      r1 := RunExists(prefix, obj, todo - {k}, r);
      assert RunFirst(prefix, obj, todo, k, r0, r, r1);
    }
  }

  lemma {:induction false} RunValueExists(key: string, v: Json, r0: Record) returns (r1: Record)
    ensures RunValue(key, v, r0, r1)
    decreases v, 1
  {
    match v
    case Null => r1 := r0;
    case Object(fields) => r1 := RunExists(key, v, fields.Keys, r0);
    case _ => r1 := r0[key := TextOf(v)];
  }

  /** A key may be visited last as well as first. */
  lemma {:induction false} RunLast(prefix: string, obj: Json, todo: set<string>, k: string, r0: Record, r: Record, r1: Record)
    requires obj.Object? && todo <= obj.fields.Keys && k in obj.fields && k !in todo
    requires Run(prefix, obj, todo, r0, r) && RunValue(KeyUnder(prefix, k), obj.fields[k], r, r1)
    ensures Run(prefix, obj, todo + {k}, r0, r1)
    decreases |todo|
  {
    if todo == {} {
      assert (todo + {k}) - {k} == {};
      assert RunFirst(prefix, obj, todo + {k}, k, r0, r1, r1);
    } else {
      var j, s :| RunFirst(prefix, obj, todo, j, r0, s, r);
      RunLast(prefix, obj, todo - {j}, k, s, r, r1);
      assert (todo - {j}) + {k} == (todo + {k}) - {j};
      assert RunFirst(prefix, obj, todo + {k}, j, r0, s, r1);
    }
  }

  lemma {:induction false} LeafCanWin(prefix: string, obj: Json, leaf: Leaf, r0: Record) returns (r1: Record)
    requires obj.Object? && leaf in Leaves(prefix, obj, obj.fields.Keys)
    ensures Run(prefix, obj, obj.fields.Keys, r0, r1) && leaf.0 in r1 && r1[leaf.0] == leaf.1
    decreases obj
  {
    hide NormalizeKey, KeyUnder;
    var k :| k in obj.fields && leaf in ValueLeaves(KeyUnder(prefix, k), obj.fields[k]);
    hide Leaves;
    var others := obj.fields.Keys - {k};
    var r := RunExists(prefix, obj, others, r0);
    var v := obj.fields[k];
    if v.Object? {
      r1 := LeafCanWin(KeyUnder(prefix, k), v, leaf, r);
    } else {
      r1 := r[KeyUnder(prefix, k) := TextOf(v)];
    }
    RunLast(prefix, obj, others, k, r0, r, r1);
    assert others + {k} == obj.fields.Keys;
  }

  // ---------------------------------------------------------------------------
  // The iteration order is invisible exactly when no two leaves clash
  // ---------------------------------------------------------------------------

  ghost predicate Unambiguous(leaves: set<Leaf>) {
    forall a, b :: a in leaves && b in leaves && a.0 == b.0 ==> a.1 == b.1
  }

  lemma ExtensionIsUnique(r0: Record, leaves: set<Leaf>, r1: Record, r2: Record)
    requires Unambiguous(leaves) && Extends(r0, leaves, r1) && Extends(r0, leaves, r2)
    ensures r1 == r2
  {
    assert r1.Keys == r2.Keys;
    forall name | name in r1
      ensures r1[name] == r2[name]
    {
      if Names(leaves, name) {
        assert (name, r1[name]) in leaves && (name, r2[name]) in leaves;
        assert (name, r1[name]).0 == (name, r2[name]).0;
      }
    }
  }

  ghost predicate OrderIrrelevant(prefix: string, obj: Json, r0: Record)
    requires obj.Object?
  {
    forall r1, r2 :: Run(prefix, obj, obj.fields.Keys, r0, r1) && Run(prefix, obj, obj.fields.Keys, r0, r2) ==> r1 == r2
  }

  lemma OrderIrrelevantIff(prefix: string, obj: Json, r0: Record)
    requires obj.Object?
    ensures OrderIrrelevant(prefix, obj, r0) <==> Unambiguous(Leaves(prefix, obj, obj.fields.Keys))
  {
    var leaves := Leaves(prefix, obj, obj.fields.Keys);
    if Unambiguous(leaves) {
      forall r1, r2 | Run(prefix, obj, obj.fields.Keys, r0, r1) && Run(prefix, obj, obj.fields.Keys, r0, r2)
        ensures r1 == r2
      {
        RunExtends(prefix, obj, obj.fields.Keys, r0, r1);
        RunExtends(prefix, obj, obj.fields.Keys, r0, r2);
        ExtensionIsUnique(r0, leaves, r1, r2);
      }
    } else {
      var a, b :| a in leaves && b in leaves && a.0 == b.0 && a.1 != b.1;
      var r1 := LeafCanWin(prefix, obj, a, r0);
      var r2 := LeafCanWin(prefix, obj, b, r0);
      assert r1 != r2;
    }
  }

  // ---------------------------------------------------------------------------
  // Distinct, non-empty, dot-free keys: dotted keys are paths
  // ---------------------------------------------------------------------------

  /** At each level: normalised keys differ, are not empty and hold no dot. */
  ghost predicate WellKeyed(v: Json) {
    v.Object? ==>
      && (forall k :: k in v.fields ==> NormalizeKey(k) != "" && '.' !in NormalizeKey(k) && WellKeyed(v.fields[k]))
      && (forall k, l :: k in v.fields && l in v.fields && NormalizeKey(k) == NormalizeKey(l) ==> k == l)
  }

  type Path = seq<string>

  /** The leaf at the end of a path of field names, if there is a non-null one. */
  function LeafAt(v: Json, path: Path): Option<string>
    decreases |path|
  {
    if path == [] then (if v.Null? || v.Object? then None else Some(TextOf(v)))
    else if v.Object? && path[0] in v.fields then LeafAt(v.fields[path[0]], path[1..])
    else None
  }

  /** The key a path is flattened to: its normalised names, joined by dots. */
  function Dotted(path: Path): string {
    if path == [] then ""
    else if |path| == 1 then NormalizeKey(path[0])
    else NormalizeKey(path[0]) + "." + Dotted(path[1..])
  }

  function DottedUnder(prefix: string, path: Path): string {
    if path == [] then prefix else if prefix == "" then Dotted(path) else prefix + "." + Dotted(path)
  }

  lemma DottedStep(prefix: string, path: Path)
    requires path != [] && NormalizeKey(path[0]) != ""
    ensures KeyUnder(prefix, path[0]) != ""
    ensures DottedUnder(KeyUnder(prefix, path[0]), path[1..]) == DottedUnder(prefix, path)
  {
    var n := NormalizeKey(path[0]);
    if |path| > 1 && prefix != "" {
      assert (prefix + "." + n) + "." + Dotted(path[1..]) == prefix + "." + (n + "." + Dotted(path[1..]));
    }
  }

  /** The leaves are the non-null ends of the paths. */
  lemma {:induction false} LeavesArePaths(key: string, v: Json, leaf: Leaf)
    requires WellKeyed(v)
    ensures leaf in ValueLeaves(key, v) <==>
            exists path :: LeafAt(v, path) == Some(leaf.1) && DottedUnder(key, path) == leaf.0
    decreases v
  {
    if leaf in ValueLeaves(key, v) {
      var path := PathOfLeaf(key, v, leaf);
    }
    if path :| LeafAt(v, path) == Some(leaf.1) && DottedUnder(key, path) == leaf.0 {
      LeafOfPath(key, v, path);
    }
  }

  lemma {:induction false} PathOfLeaf(key: string, v: Json, leaf: Leaf) returns (path: Path)
    requires WellKeyed(v) && leaf in ValueLeaves(key, v)
    ensures LeafAt(v, path) == Some(leaf.1) && DottedUnder(key, path) == leaf.0
    decreases v
  {
    if v.Object? {
      var k :| k in v.fields && leaf in ValueLeaves(KeyUnder(key, k), v.fields[k]);
      var rest := PathOfLeaf(KeyUnder(key, k), v.fields[k], leaf);
      path := [k] + rest;
      assert path[1..] == rest;
      DottedStep(key, path);
    } else {
      path := [];
    }
  }

  lemma {:induction false} LeafOfPath(key: string, v: Json, path: Path)
    requires WellKeyed(v) && LeafAt(v, path).Some?
    ensures (DottedUnder(key, path), LeafAt(v, path).value) in ValueLeaves(key, v)
    decreases |path|
  {
    if path != [] {
      DottedStep(key, path);
      LeafOfPath(KeyUnder(key, path[0]), v.fields[path[0]], path[1..]);
    }
  }

  lemma {:induction false} FirstDot(a: string, b: string, x: string, y: string)
    requires '.' !in a && '.' !in b && a + x == b + y
    requires (x == "" || x[0] == '.') && (y == "" || y[0] == '.')
    ensures a == b && x == y
    decreases |a|
  {
    assert a != "" ==> (a + x)[0] == a[0] && (a + x)[1..] == a[1..] + x;
    assert b != "" ==> (b + y)[0] == b[0] && (b + y)[1..] == b[1..] + y;
    assert a == "" ==> a + x == x;
    assert b == "" ==> b + y == y;
    if a != "" && b != "" {
      FirstDot(a[1..], b[1..], x, y);
    }
  }

  function DottedRest(path: Path): string
    requires path != []
  {
    if |path| == 1 then "" else "." + Dotted(path[1..])
  }

  lemma DottedRestDecides(p: Path, q: Path)
    requires p != [] && q != [] && DottedRest(p) == DottedRest(q)
    ensures Dotted(p[1..]) == Dotted(q[1..])
  {
    assert |p| > 1 ==> DottedRest(p)[1..] == Dotted(p[1..]);
    assert |q| > 1 ==> DottedRest(q)[1..] == Dotted(q[1..]);
  }

  lemma DottedSplits(p: Path)
    requires p != []
    ensures Dotted(p) == NormalizeKey(p[0]) + DottedRest(p)
    ensures DottedRest(p) == "" || DottedRest(p)[0] == '.'
  {
  }

  /** Distinct leaves never share a dotted key. */
  lemma {:induction false} DottedIsInjective(v: Json, p: Path, q: Path)
    requires WellKeyed(v) && LeafAt(v, p).Some? && LeafAt(v, q).Some? && Dotted(p) == Dotted(q)
    ensures p == q
    decreases |p|
  {
    if v.Object? {
      hide NormalizeKey, Dotted, DottedRest, WellKeyed, LeafAt;
      LeafBelow(v, p);
      LeafBelow(v, q);
      DottedSplits(p);
      DottedSplits(q);
      FirstDot(NormalizeKey(p[0]), NormalizeKey(q[0]), DottedRest(p), DottedRest(q));
      FieldsDiffer(v, p[0], q[0]);
      DottedRestDecides(p, q);
      DottedIsInjective(v.fields[p[0]], p[1..], q[1..]);
      assert p == [p[0]] + p[1..] && q == [q[0]] + q[1..];
    } else {
      assert p == [] && q == [];
    }
  }

  lemma LeafBelow(v: Json, p: Path)
    requires v.Object? && WellKeyed(v) && LeafAt(v, p).Some?
    ensures p != [] && p[0] in v.fields && WellKeyed(v.fields[p[0]]) && LeafAt(v.fields[p[0]], p[1..]).Some?
    ensures '.' !in NormalizeKey(p[0])
  {
  }

  lemma FieldsDiffer(v: Json, k: string, l: string)
    requires v.Object? && WellKeyed(v) && k in v.fields && l in v.fields && NormalizeKey(k) == NormalizeKey(l)
    ensures k == l
  {
  }

  lemma WellKeyedIsUnambiguous(obj: Json)
    requires obj.Object? && WellKeyed(obj)
    ensures Unambiguous(ValueLeaves("", obj))
  {
    hide Dotted, LeafAt, WellKeyed, ValueLeaves;
    forall a, b | a in ValueLeaves("", obj) && b in ValueLeaves("", obj) && a.0 == b.0
      ensures a.1 == b.1
    {
      var p := PathOfLeaf("", obj, a);
      var q := PathOfLeaf("", obj, b);
      PathOfObject(obj, p);
      PathOfObject(obj, q);
      DottedIsInjective(obj, p, q);
    }
  }

  lemma PathOfObject(obj: Json, path: Path)
    requires obj.Object? && LeafAt(obj, path).Some?
    ensures DottedUnder("", path) == Dotted(path)
  {
  }

  ghost predicate IsDottedLeaf(obj: Json, name: string) {
    exists path :: LeafAt(obj, path).Some? && Dotted(path) == name
  }

  ghost predicate Records(rec: Record, obj: Json, path: Path) {
    LeafAt(obj, path).Some? ==> Dotted(path) in rec && rec[Dotted(path)] == LeafAt(obj, path).value
  }

  lemma LeafIsRecorded(obj: Json, rec: Record, path: Path)
    requires obj.Object? && WellKeyed(obj) && Extends(map[], ValueLeaves("", obj), rec)
    ensures Records(rec, obj, path)
  {
    WellKeyedIsUnambiguous(obj);
    if LeafAt(obj, path).Some? {
      PathOfObject(obj, path);
      LeafOfPath("", obj, path);
      hide Dotted, LeafAt, WellKeyed, ValueLeaves;
      var leaves, leaf := ValueLeaves("", obj), (Dotted(path), LeafAt(obj, path).value);
      assert leaf in leaves && Names(leaves, leaf.0);
      assert (leaf.0, rec[leaf.0]).0 == leaf.0;
    }
  }

  lemma NameIsPath(obj: Json, rec: Record, name: string)
    requires obj.Object? && WellKeyed(obj) && Extends(map[], ValueLeaves("", obj), rec) && name in rec
    ensures IsDottedLeaf(obj, name)
  {
    assert Names(ValueLeaves("", obj), name);
    var path := PathOfLeaf("", obj, (name, rec[name]));
    PathOfObject(obj, path);
  }

  /**
    For well-keyed objects every order gives the same record: one entry per
    non-null leaf, under its dotted path, and no two leaves in one entry.
    */
  lemma WellKeyedFlattening(obj: Json, rec: Record)
    requires obj.Object? && WellKeyed(obj) && Run("", obj, obj.fields.Keys, map[], rec)
    ensures OrderIrrelevant("", obj, map[])
    ensures forall name :: name in rec ==> IsDottedLeaf(obj, name)
    ensures forall path :: Records(rec, obj, path)
  {
    RunValueExtends("", obj, map[], rec);
    WellKeyedIsUnambiguous(obj);
    OrderIrrelevantIff("", obj, map[]);
    hide *;
    forall path
      ensures Records(rec, obj, path)
    {
      LeafIsRecorded(obj, rec, path);
    }
    forall name | name in rec
      ensures IsDottedLeaf(obj, name)
    {
      NameIsPath(obj, rec, name);
    }
  }

  /** The texts scalars are written as. */
  predicate IsTextOf(v: Json, text: string) {
    || v == Str(text) || v == Number(text) || v == Other(text)
    || (v == Bool(true) && text == "true") || (v == Bool(false) && text == "false")
  }

  /** A scalar field of a well-keyed object stands under its own name, whatever the order. */
  lemma FieldIsRecorded(obj: Json, rec: Record, k: string, text: string)
    requires obj.Object? && WellKeyed(obj) && Run("", obj, obj.fields.Keys, map[], rec)
    requires k in obj.fields && IsTextOf(obj.fields[k], text)
    ensures NormalizeKey(k) in rec && rec[NormalizeKey(k)] == text
  {
    WellKeyedFlattening(obj, rec);
    hide NormalizeKey, WellKeyed, Run;
    assert [k][1..] == [];
    assert LeafAt(obj, [k]) == LeafAt(obj.fields[k], []) == Some(text);
    assert Records(rec, obj, [k]);
  }

  lemma PathOfTwo(obj: Json, k: string, l: string, text: string)
    requires obj.Object? && k in obj.fields && obj.fields[k].Object?
    requires l in obj.fields[k].fields && IsTextOf(obj.fields[k].fields[l], text)
    ensures LeafAt(obj, [k, l]) == Some(text) && Dotted([k, l]) == NormalizeKey(k) + "." + NormalizeKey(l)
  {
    hide NormalizeKey;
    assert [k, l][1..] == [l] && [l][1..] == [];
    assert LeafAt(obj.fields[k], [l]) == LeafAt(obj.fields[k].fields[l], []) == Some(text);
    assert Dotted([l]) == NormalizeKey(l);
  }

  /** One level down, under both names with a dot between. */
  lemma NestedFieldIsRecorded(obj: Json, rec: Record, k: string, l: string, text: string)
    requires obj.Object? && WellKeyed(obj) && Run("", obj, obj.fields.Keys, map[], rec)
    requires k in obj.fields && obj.fields[k].Object?
    requires l in obj.fields[k].fields && IsTextOf(obj.fields[k].fields[l], text)
    ensures var name := NormalizeKey(k) + "." + NormalizeKey(l); name in rec && rec[name] == text
  {
    PathOfTwo(obj, k, l, text);
    WellKeyedFlattening(obj, rec);
    hide NormalizeKey, WellKeyed, Run, LeafAt, Dotted, IsDottedLeaf, OrderIrrelevant;
    assert Records(rec, obj, [k, l]);
  }

  /** An empty key spoils it: "" doubles as "no prefix", so its children land among the top-level keys. */
  lemma EmptyKeysClash(x: string, y: string)
    requires x != y
    ensures !OrderIrrelevant("", Object(map["" := Object(map["a" := Str(x)]), "a" := Str(y)]), map[])
  {
    var inner := Object(map["a" := Str(x)]);
    var obj := Object(map["" := inner, "a" := Str(y)]);
    assert NormalizeKey("") == "";
    var leaves := Leaves("", obj, obj.fields.Keys);
    var n := NormalizeKey("a");
    assert "" in obj.fields && "a" in obj.fields && "a" in inner.fields;
    hide NormalizeKey;
    assert (n, x) in ValueLeaves(KeyUnder("", "a"), inner.fields["a"]);
    assert (n, x) in ValueLeaves(KeyUnder("", ""), obj.fields[""]);
    assert (n, y) in ValueLeaves(KeyUnder("", "a"), obj.fields["a"]);
    assert (n, x) in leaves && (n, y) in leaves;
    assert (n, x).0 == (n, y).0 && (n, x).1 != (n, y).1;
    OrderIrrelevantIff("", obj, map[]);
  }
}
