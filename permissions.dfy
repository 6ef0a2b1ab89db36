/**
 * The `permissions` option: a nested object such as
 * `{ Query: { '*': 1, getAnotherUser: 2 } }` flattened into the limit table
 * `{ "Query" -> 1, "Query.getAnotherUser" -> 2 }` by a recursive walk that
 * writes into one shared map.
 */
module Permissions {

  /** A permissions value: a number, or a nested object with its entries in `Object.entries` order. */
  datatype Perm = Leaf(limit: int) | Group(entries: seq<Entry>)

  datatype Entry = Entry(key: string, value: Perm)

  /** `Object.entries(p)`: a number has no entries. */
  function Entries(p: Perm): seq<Entry> {
    if p.Group? then p.entries else []
  }

  /**
   * The path handed to the walk of a nested object: the parent path and the
   * key, with a '.' between them only when both are non-empty.
   */
  function JoinPath(parentKey: string, key: string): (r: string)
    ensures parentKey == "" ==> r == key
    ensures key == "" ==> r == parentKey
    ensures parentKey != "" && key != "" ==> r == parentKey + "." + key
  {
    (if parentKey != "" then parentKey else "") + (if parentKey != "" && key != "" then "." else "") + (if key != "" then key else "")
  }

  /**
   * The key a number is stored under: the parent path itself for '*', the
   * parent path, a '.' and the key otherwise (the '.' is written even when
   * the parent path is empty).
   */
  function LeafKey(parentKey: string, key: string): (r: string)
    ensures key == "*" ==> r == parentKey
    ensures key != "*" ==>
      |r| == |parentKey| + 1 + |key| && r[..|parentKey|] == parentKey && r[|parentKey|] == '.' && r[|parentKey| + 1..] == key
  {
    if key == "*" then parentKey else parentKey + "." + key
  }

  /** The shared result map after the walk has handled entries `i..` of `p` under `parentKey`. */
  function Walk(acc: map<string, int>, p: Perm, i: nat, parentKey: string): map<string, int>
    decreases p, |Entries(p)| - i
  {
    if i >= |Entries(p)| then acc
    else
      var e := Entries(p)[i];
      assert e in p.entries;
      var next := match e.value
        case Group(_) => Walk(acc, e.value, 0, JoinPath(parentKey, e.key))
        case Leaf(n) => acc[LeafKey(parentKey, e.key) := n];
      Walk(next, p, i + 1, parentKey)
  }

  /** The table built from a permissions object, its top-level path being empty. */
  function Flatten(permissions: Perm): map<string, int> {
    Walk(map[], permissions, 0, "")
  }

  /** A JavaScript `Map<string, number>` that the walk writes into. */
  class Table {
    var entries: map<string, int>

    constructor()
      ensures entries == map[]
    {
      entries := map[];
    }

    method Set(key: string, value: int)
      modifies this
      ensures entries == old(entries)[key := value]
    {
      entries := entries[key := value];
    }
  }

  /** `configPermissionWalker`: adds the entries of `permissions` to `result`, in order. */
  method ConfigPermissionWalker(permissions: Perm, result: Table, parentKey: string)
    modifies result
    ensures result.entries == Walk(old(result.entries), permissions, 0, parentKey)
    decreases permissions
  {
    var entries := Entries(permissions);
    var i := 0;
    while i < |entries|
      invariant 0 <= i <= |entries|
      invariant Walk(old(result.entries), permissions, 0, parentKey) == Walk(result.entries, permissions, i, parentKey)
    {
      var key, value := entries[i].key, entries[i].value;
      assert entries[i] in permissions.entries;
      if value.Group? {
        ConfigPermissionWalker(value, result, JoinPath(parentKey, key));
      } else if key == "*" {
        result.Set(parentKey, value.limit);
      } else {
        result.Set(parentKey + "." + key, value.limit);
      }
      i := i + 1;
    }
  }

  /** `buildPermissionTableFromConfig`: a fresh map filled by one walk from the empty path. */
  method BuildPermissionTableFromConfig(permissions: Perm) returns (table: map<string, int>)
    ensures table == Flatten(permissions)
  {
    var result := new Table();
    ConfigPermissionWalker(permissions, result, "");
    table := result.entries;
  }

  // ----- A reference reading: every number with the path of keys that leads to it -----

  /** A number found in the permissions object and the keys on the way to it, outermost first. */
  datatype LeafPath = LeafPath(path: seq<string>, limit: int)

  /** `ls` with `key` put in front of every path. */
  function Prefixed(key: string, ls: seq<LeafPath>): (r: seq<LeafPath>)
    ensures |r| == |ls|
    ensures forall j :: 0 <= j < |ls| ==> r[j] == LeafPath([key] + ls[j].path, ls[j].limit)
  {
    seq(|ls|, j requires 0 <= j < |ls| => LeafPath([key] + ls[j].path, ls[j].limit))
  }

  /** The numbers of entries `i..` of `p`, in the order a depth-first walk meets them. */
  function LeavesFrom(p: Perm, i: nat): (r: seq<LeafPath>)
    ensures forall j :: 0 <= j < |r| ==> |r[j].path| >= 1
    decreases p, |Entries(p)| - i
  {
    if i >= |Entries(p)| then []
    else
      var e := Entries(p)[i];
      assert e in p.entries;
      var here := if e.value.Group? then Prefixed(e.key, LeavesFrom(e.value, 0)) else [LeafPath([e.key], e.value.limit)];
      here + LeavesFrom(p, i + 1)
  }

  function Leaves(p: Perm): seq<LeafPath> {
    LeavesFrom(p, 0)
  }

  /** The key a path of keys is stored under when the walk starts from `parentKey`. */
  function Render(parentKey: string, path: seq<string>): string
    requires |path| >= 1
    decreases |path|
  {
    if |path| == 1 then LeafKey(parentKey, path[0]) else Render(JoinPath(parentKey, path[0]), path[1..])
  }

  predicate NonEmptyPaths(ls: seq<LeafPath>) {
    forall j :: 0 <= j < |ls| ==> |ls[j].path| >= 1
  }

  /** Storing each number under its rendered path, one after the other (later ones win). */
  function InsertAll(acc: map<string, int>, parentKey: string, ls: seq<LeafPath>): map<string, int>
    requires NonEmptyPaths(ls)
    decreases |ls|
  {
    if ls == [] then acc
    else InsertAll(acc[Render(parentKey, ls[0].path) := ls[0].limit], parentKey, ls[1..])
  }

  lemma {:induction false} InsertAllAppend(acc: map<string, int>, parentKey: string, a: seq<LeafPath>, b: seq<LeafPath>)
    requires NonEmptyPaths(a) && NonEmptyPaths(b)
    ensures NonEmptyPaths(a + b)
    ensures InsertAll(acc, parentKey, a + b) == InsertAll(InsertAll(acc, parentKey, a), parentKey, b)
    decreases |a|
  {
    if a != [] {
      assert (a + b)[1..] == a[1..] + b;
      InsertAllAppend(acc[Render(parentKey, a[0].path) := a[0].limit], parentKey, a[1..], b);
    } else {
      assert a + b == b;
    }
  }

  lemma {:induction false} InsertAllPrefixed(acc: map<string, int>, parentKey: string, key: string, ls: seq<LeafPath>)
    requires NonEmptyPaths(ls)
    ensures NonEmptyPaths(Prefixed(key, ls))
    ensures InsertAll(acc, parentKey, Prefixed(key, ls)) == InsertAll(acc, JoinPath(parentKey, key), ls)
    decreases |ls|
  {
    var pls := Prefixed(key, ls);
    if ls != [] {
      assert ([key] + ls[0].path)[1..] == ls[0].path;
      assert Render(parentKey, pls[0].path) == Render(JoinPath(parentKey, key), ls[0].path);
      assert pls[1..] == Prefixed(key, ls[1..]);
      InsertAllPrefixed(acc[Render(parentKey, pls[0].path) := pls[0].limit], parentKey, key, ls[1..]);
    }
  }

  /**
   * The walk stores exactly what the reference reading gives: every number
   * under its rendered path, in depth-first order, later writes winning.
   */
  lemma {:induction false} WalkIsInsertAll(acc: map<string, int>, p: Perm, i: nat, parentKey: string)
    ensures Walk(acc, p, i, parentKey) == InsertAll(acc, parentKey, LeavesFrom(p, i))
    decreases p, |Entries(p)| - i
  {
    if i < |Entries(p)| {
      var e := Entries(p)[i];
      assert e in p.entries;
      var rest := LeavesFrom(p, i + 1);
      if e.value.Group? {
        var inner := LeavesFrom(e.value, 0);
        var here := Prefixed(e.key, inner);
        WalkIsInsertAll(acc, e.value, 0, JoinPath(parentKey, e.key));
        InsertAllPrefixed(acc, parentKey, e.key, inner);
        var next := Walk(acc, e.value, 0, JoinPath(parentKey, e.key));
        WalkIsInsertAll(next, p, i + 1, parentKey);
        InsertAllAppend(acc, parentKey, here, rest);
      } else {
        var here := [LeafPath([e.key], e.value.limit)];
        var next := acc[LeafKey(parentKey, e.key) := e.value.limit];
        WalkIsInsertAll(next, p, i + 1, parentKey);
        InsertAllAppend(acc, parentKey, here, rest);
        assert InsertAll(acc, parentKey, here) == next;
      }
    }
  }

  lemma {:induction false} InsertAllKeys(acc: map<string, int>, parentKey: string, ls: seq<LeafPath>)
    requires NonEmptyPaths(ls)
    ensures InsertAll(acc, parentKey, ls).Keys == acc.Keys + set j | 0 <= j < |ls| :: Render(parentKey, ls[j].path)
    decreases |ls|
  {
    if ls != [] {
      var acc' := acc[Render(parentKey, ls[0].path) := ls[0].limit];
      InsertAllKeys(acc', parentKey, ls[1..]);
      var tail := set j | 0 <= j < |ls| - 1 :: Render(parentKey, ls[1..][j].path);
      var all := set j | 0 <= j < |ls| :: Render(parentKey, ls[j].path);
      assert all == {Render(parentKey, ls[0].path)} + tail by {
        forall k | k in all ensures k in {Render(parentKey, ls[0].path)} + tail {
          var j :| 0 <= j < |ls| && k == Render(parentKey, ls[j].path);
          if j > 0 { assert ls[1..][j - 1] == ls[j]; }
        }
        forall k | k in tail ensures k in all {
          var j :| 0 <= j < |ls| - 1 && k == Render(parentKey, ls[1..][j].path);
          assert ls[1..][j] == ls[j + 1];
        }
      }
    }
  }

  lemma {:induction false} InsertAllUntouched(acc: map<string, int>, parentKey: string, ls: seq<LeafPath>, key: string)
    requires NonEmptyPaths(ls)
    requires key in acc
    requires forall j :: 0 <= j < |ls| ==> Render(parentKey, ls[j].path) != key
    ensures key in InsertAll(acc, parentKey, ls) && InsertAll(acc, parentKey, ls)[key] == acc[key]
    decreases |ls|
  {
    if ls != [] {
      InsertAllUntouched(acc[Render(parentKey, ls[0].path) := ls[0].limit], parentKey, ls[1..], key);
    }
  }

  lemma {:induction false} InsertAllValue(acc: map<string, int>, parentKey: string, ls: seq<LeafPath>, i: nat)
    requires NonEmptyPaths(ls)
    requires i < |ls|
    requires forall j :: 0 <= j < |ls| && j != i ==> Render(parentKey, ls[j].path) != Render(parentKey, ls[i].path)
    ensures Render(parentKey, ls[i].path) in InsertAll(acc, parentKey, ls)
    ensures InsertAll(acc, parentKey, ls)[Render(parentKey, ls[i].path)] == ls[i].limit
    decreases |ls|
  {
    var acc' := acc[Render(parentKey, ls[0].path) := ls[0].limit];
    if i == 0 {
      forall j | 0 <= j < |ls| - 1 ensures Render(parentKey, ls[1..][j].path) != Render(parentKey, ls[0].path) {
        assert ls[1..][j] == ls[j + 1];
      }
      InsertAllUntouched(acc', parentKey, ls[1..], Render(parentKey, ls[0].path));
    } else {
      assert ls[1..][i - 1] == ls[i];
      forall j | 0 <= j < |ls| - 1 && j != i - 1
        ensures Render(parentKey, ls[1..][j].path) != Render(parentKey, ls[1..][i - 1].path)
      {
        assert ls[1..][j] == ls[j + 1];
      }
      InsertAllValue(acc', parentKey, ls[1..], i - 1);
    }
  }

  /** The flattened table's keys are exactly the rendered paths of all numbers in the object. */
  lemma FlattenKeys(permissions: Perm)
    ensures Flatten(permissions).Keys == set j | 0 <= j < |Leaves(permissions)| :: Render("", Leaves(permissions)[j].path)
  {
    WalkIsInsertAll(map[], permissions, 0, "");
    InsertAllKeys(map[], "", Leaves(permissions));
  }

  /** A number whose rendered path no other number shares is stored with its own value. */
  lemma FlattenValue(permissions: Perm, i: nat)
    requires i < |Leaves(permissions)|
    requires forall j :: 0 <= j < |Leaves(permissions)| && j != i ==>
      Render("", Leaves(permissions)[j].path) != Render("", Leaves(permissions)[i].path)
    ensures Render("", Leaves(permissions)[i].path) in Flatten(permissions)
    ensures Flatten(permissions)[Render("", Leaves(permissions)[i].path)] == Leaves(permissions)[i].limit
  {
    WalkIsInsertAll(map[], permissions, 0, "");
    InsertAllValue(map[], "", Leaves(permissions), i);
  }

  /** Two levels: `{T: {'*': n}}` renders to `T`, `{T: {f: m}}` to `T.f`. */
  lemma RenderTypeAndField(typeName: string, field: string)
    requires field != "*"
    ensures Render("", [typeName, "*"]) == typeName
    ensures Render("", [typeName, field]) == typeName + "." + field
  {
    assert [typeName, "*"][1..] == ["*"];
    assert [typeName, field][1..] == [field];
  }

  /** `{T: {'*': n}}` flattens to the single type-wide entry `T -> n`. */
  lemma FlattenTypeDefault(typeName: string, n: int)
    ensures Flatten(Group([Entry(typeName, Group([Entry("*", Leaf(n))]))])) == map[typeName := n]
  {
    var inner := Group([Entry("*", Leaf(n))]);
    var outer := Group([Entry(typeName, inner)]);
    assert Walk(map[], inner, 0, typeName) == map[typeName := n] by {
      assert Walk(map[], inner, 0, typeName) == Walk(map[typeName := n], inner, 1, typeName);
    }
    assert Walk(map[], outer, 0, "") == Walk(map[typeName := n], outer, 1, "");
  }

  /** `{T: {f: m}}` flattens to the single field entry `T.f -> m`. */
  lemma FlattenTypeField(typeName: string, field: string, m: int)
    requires field != "*"
    ensures Flatten(Group([Entry(typeName, Group([Entry(field, Leaf(m))]))])) == map[typeName + "." + field := m]
  {
    var inner := Group([Entry(field, Leaf(m))]);
    var outer := Group([Entry(typeName, inner)]);
    var key := typeName + "." + field;
    assert Walk(map[], inner, 0, typeName) == map[key := m] by {
      assert Walk(map[], inner, 0, typeName) == Walk(map[key := m], inner, 1, typeName);
    }
    assert Walk(map[], outer, 0, "") == Walk(map[key := m], outer, 1, "");
  }

  /** Both kinds of entry live side by side: `{T: {'*': n, f: m}}` gives `T -> n` and `T.f -> m`. */
  lemma FlattenDefaultAndOverride(typeName: string, n: int, field: string, m: int)
    requires field != "*"
    ensures Flatten(Group([Entry(typeName, Group([Entry("*", Leaf(n)), Entry(field, Leaf(m))]))]))
      == map[typeName := n, typeName + "." + field := m]
  {
    var inner := Group([Entry("*", Leaf(n)), Entry(field, Leaf(m))]);
    var outer := Group([Entry(typeName, inner)]);
    var key := typeName + "." + field;
    assert Walk(map[], inner, 0, typeName) == map[typeName := n, key := m] by {
      assert Walk(map[], inner, 0, typeName) == Walk(map[typeName := n], inner, 1, typeName);
      assert Walk(map[typeName := n], inner, 1, typeName) == Walk(map[typeName := n, key := m], inner, 2, typeName);
    }
    assert Walk(map[], outer, 0, "") == Walk(map[typeName := n, key := m], outer, 1, "");
  }
}
