/** `flatten`: a nested dict as a list of rows, each row a key path followed by its leaf. */
module Flattening {
  import opened Wrappers
  import opened Values
  import opened KeyOrder

  /** The Python row `[k1, ..., kn, leaf]`, split into its key path and its last element. */
  datatype Row = Row(path: seq<string>, leaf: Value)

  /** The rows of a nested value with `k` put in front of each path. */
  function Prefixed(k: string, rows: seq<Row>): seq<Row>
  {
    seq(|rows|, i requires 0 <= i < |rows| => Row([k] + rows[i].path, rows[i].leaf))
  }

  /** What `flatten(v)` returns. */
  function Flat(v: Value): (rows: seq<Row>)
    ensures !v.Dict? ==> rows == [Row([], v)]
    ensures forall r :: r in rows ==> !r.leaf.Dict?
    ensures v.Dict? ==> forall r :: r in rows ==> r.path != [] && r.path[0] in v.entries
    decreases v, 1
  {
    match v
    case Dict(m) => FlatEntries(m, SortedKeys(m.Keys))
    case _ => [Row([], v)]
  }

  /** The rows contributed by the entries of `m` under `keys`, in the order of `keys`. */
  function FlatEntries(m: map<string, Value>, keys: seq<string>): (rows: seq<Row>)
    requires forall k :: k in keys ==> k in m
    ensures forall r :: r in rows ==> !r.leaf.Dict? && r.path != [] && r.path[0] in keys
    decreases Dict(m), 0, |keys|
  {
    if keys == [] then []
    else
      var k := keys[|keys| - 1];
      var rest := FlatEntries(m, keys[..|keys| - 1]);
      var block := Prefixed(k, Flat(m[k]));
      assert forall r :: r in block ==> r.path[0] == k && r.path[0] in keys;
      rest + block
  }

  /** `flatten` as it computes its rows: recursion, then two nested loops appending rows. */
  method Flatten(d: Value) returns (rows: seq<Row>)
    ensures rows == Flat(d)
    decreases d
  {
    if !d.Dict? {
      return [Row([], d)];
    }
    var m := d.entries;
    var keys := SortedKeys(m.Keys);
    rows := [];
    for i := 0 to |keys|
      invariant rows == FlatEntries(m, keys[..i])
    {
      var key := keys[i];
      var nested := Flatten(m[key]);
      rows := AppendUnder(rows, key, nested);
      FlatEntriesSnoc(m, keys, i);
    }
    assert keys[..|keys|] == keys;
  }

  /** The inner loop of `flatten`: append `[key] + nest` for every row `nest` of the nested result. */
  method AppendUnder(returned: seq<Row>, key: string, nested: seq<Row>) returns (rows: seq<Row>)
    ensures rows == returned + Prefixed(key, nested)
  {
    rows := returned;
    for j := 0 to |nested|
      invariant rows == returned + Prefixed(key, nested[..j])
    {
      var currentRow := Row([key] + nested[j].path, nested[j].leaf);
      PrefixedSnoc(key, nested, j);
      rows := rows + [currentRow];
    }
    assert nested[..|nested|] == nested;
  }

  lemma PrefixedSnoc(k: string, rows: seq<Row>, j: nat)
    requires j < |rows|
    ensures Prefixed(k, rows[..j + 1]) == Prefixed(k, rows[..j]) + [Row([k] + rows[j].path, rows[j].leaf)]
  {
  }

  lemma FlatEntriesSnoc(m: map<string, Value>, keys: seq<string>, i: nat)
    requires forall k :: k in keys ==> k in m
    requires i < |keys|
    ensures FlatEntries(m, keys[..i + 1]) == FlatEntries(m, keys[..i]) + Prefixed(keys[i], Flat(m[keys[i]]))
  {
    assert keys[..i + 1][..i] == keys[..i];
  }

  /** The value reached by following `path` through nested dicts, if any. */
  function Lookup(v: Value, path: seq<string>): Option<Value>
    decreases |path|
  {
    if path == [] then Some(v)
    else match v
      case Dict(m) => if path[0] in m then Lookup(m[path[0]], path[1..]) else None
      case _ => None
  }

  lemma {:induction false} PrefixedMembership(k: string, rows: seq<Row>, p: seq<string>, l: Value)
    ensures Row(p, l) in Prefixed(k, rows) <==> p != [] && p[0] == k && Row(p[1..], l) in rows
  {
    var block := Prefixed(k, rows);
    if Row(p, l) in block {
      var i :| 0 <= i < |block| && block[i] == Row(p, l);
      assert p[1..] == rows[i].path;
    }
    if p != [] && p[0] == k && Row(p[1..], l) in rows {
      var i :| 0 <= i < |rows| && rows[i] == Row(p[1..], l);
      assert block[i] == Row(p, l);
    }
  }

  lemma {:induction false} FlatEntriesMembership(m: map<string, Value>, keys: seq<string>, p: seq<string>, l: Value)
    requires forall k :: k in keys ==> k in m
    ensures Row(p, l) in FlatEntries(m, keys) <==> p != [] && p[0] in keys && Row(p[1..], l) in Flat(m[p[0]])
    decreases |keys|
  {
    if keys != [] {
      var k := keys[|keys| - 1];
      var init := keys[..|keys| - 1];
      assert keys == init + [k];
      FlatEntriesMembership(m, init, p, l);
      PrefixedMembership(k, Flat(m[k]), p, l);
    }
  }

  /** A row is in `flatten(v)` exactly when its path leads to its leaf and that leaf is not a dict. */
  lemma {:induction false} FlatMembership(v: Value, p: seq<string>, l: Value)
    ensures Row(p, l) in Flat(v) <==> Lookup(v, p) == Some(l) && !l.Dict?
    decreases v
  {
    match v
    case Dict(m) =>
      FlatEntriesMembership(m, SortedKeys(m.Keys), p, l);
      if p != [] && p[0] in m {
        FlatMembership(m[p[0]], p[1..], l);
      }
    case _ =>
  }

  /** Python's ordering of lists of strings: lexicographic, a proper prefix first. */
  predicate PathBelow(p: seq<string>, q: seq<string>)
    decreases |p|
  {
    if p == [] then q != []
    else if q == [] then false
    else if p[0] == q[0] then PathBelow(p[1..], q[1..])
    else Below(p[0], q[0])
  }

  lemma {:induction false} PathBelowIrreflexive(p: seq<string>)
    ensures !PathBelow(p, p)
    decreases |p|
  {
    if p != [] { PathBelowIrreflexive(p[1..]); }
  }

  ghost predicate StrictlyOrdered(rows: seq<Row>) {
    forall i, j :: 0 <= i < j < |rows| ==> PathBelow(rows[i].path, rows[j].path)
  }

  lemma PrefixedOrdered(k: string, rows: seq<Row>)
    requires StrictlyOrdered(rows)
    ensures StrictlyOrdered(Prefixed(k, rows))
  {
    var block := Prefixed(k, rows);
    forall i, j | 0 <= i < j < |block| ensures PathBelow(block[i].path, block[j].path) {
      assert block[i].path[1..] == rows[i].path && block[j].path[1..] == rows[j].path;
    }
  }

  lemma ConcatOrdered(a: seq<Row>, b: seq<Row>)
    requires StrictlyOrdered(a) && StrictlyOrdered(b)
    requires forall x, y :: x in a && y in b ==> PathBelow(x.path, y.path)
    ensures StrictlyOrdered(a + b)
  {
    var rows := a + b;
    forall i, j | 0 <= i < j < |rows| ensures PathBelow(rows[i].path, rows[j].path) {
      if j < |a| {
        assert rows[i] == a[i] && rows[j] == a[j];
      } else if i >= |a| {
        assert rows[i] == b[i - |a|] && rows[j] == b[j - |a|];
      } else {
        assert rows[i] in a && rows[j] in b;
      }
    }
  }

  lemma {:induction false} FlatEntriesOrdered(m: map<string, Value>, keys: seq<string>)
    requires forall k :: k in keys ==> k in m
    requires StrictlySorted(keys)
    ensures StrictlyOrdered(FlatEntries(m, keys))
    decreases Dict(m), 0, |keys|
  {
    if keys != [] {
      var k := keys[|keys| - 1];
      var init := keys[..|keys| - 1];
      SortedDropLast(keys);
      var rest := FlatEntries(m, init);
      FlatEntriesOrdered(m, init);
      FlatOrdered(m[k]);
      var block := Prefixed(k, Flat(m[k]));
      PrefixedOrdered(k, Flat(m[k]));
      BelowIrreflexive(k);
      forall x, y | x in rest && y in block ensures PathBelow(x.path, y.path) {
        var j :| 0 <= j < |block| && block[j] == y;
        assert x.path[0] in init && y.path[0] == k;
      }
      ConcatOrdered(rest, block);
    }
  }

  /** The rows of `flatten(v)` come in strictly ascending order of their key paths. */
  lemma {:induction false} FlatOrdered(v: Value)
    ensures StrictlyOrdered(Flat(v))
    decreases v, 1
  {
    match v
    case Dict(m) => FlatEntriesOrdered(m, SortedKeys(m.Keys));
    case _ =>
  }

  /** For a dict: every row has a key and a leaf (Python length at least 2), the rows are grouped
      by their first key in ascending key order, and no two rows share a key path. */
  lemma FlatGroupedByKey(m: map<string, Value>)
    ensures forall r :: r in Flat(Dict(m)) ==> |r.path| >= 1
    ensures forall i, j :: 0 <= i < j < |Flat(Dict(m))| ==>
      var p, q := Flat(Dict(m))[i].path, Flat(Dict(m))[j].path;
      (p[0] == q[0] || Below(p[0], q[0])) && p != q
  {
    var rows := Flat(Dict(m));
    FlatOrdered(Dict(m));
    forall i, j | 0 <= i < j < |rows|
      ensures var p, q := rows[i].path, rows[j].path; (p[0] == q[0] || Below(p[0], q[0])) && p != q
    {
      assert rows[i] in rows && rows[j] in rows;
      PathBelowIrreflexive(rows[i].path);
    }
  }

  /** The number of non-dict values reachable through nested dicts; an empty dict has none. */
  ghost function LeafCount(v: Value): nat
    decreases v, 1
  {
    match v
    case Dict(m) => LeafSum(m, m.Keys)
    case _ => 1
  }

  /** The leaves under the keys `ks` of `m`, summed in no particular order. */
  ghost function LeafSum(m: map<string, Value>, ks: set<string>): nat
    requires ks <= m.Keys
    decreases Dict(m), 0, ks
  {
    if ks == {} then 0
    else
      var k :| k in ks;
      LeafCount(m[k]) + LeafSum(m, ks - {k})
  }

  lemma {:induction false} LeafSumRemove(m: map<string, Value>, ks: set<string>, k: string)
    requires ks <= m.Keys && k in ks
    ensures LeafSum(m, ks) == LeafCount(m[k]) + LeafSum(m, ks - {k})
    decreases ks
  {
    var j :| j in ks && LeafSum(m, ks) == LeafCount(m[j]) + LeafSum(m, ks - {j});
    if j != k {
      LeafSumRemove(m, ks - {j}, k);
      LeafSumRemove(m, ks - {k}, j);
      assert ks - {j} - {k} == ks - {k} - {j};
    }
  }

  lemma {:induction false} FlatEntriesSize(m: map<string, Value>, ks: set<string>)
    requires ks <= m.Keys
    ensures |FlatEntries(m, SortedKeys(ks))| == LeafSum(m, ks)
    decreases Dict(m), 0, ks
  {
    if ks != {} {
      var g := Greatest(ks);
      var keys := SortedKeys(ks);
      assert keys == SortedKeys(ks - {g}) + [g];
      assert keys[..|keys| - 1] == SortedKeys(ks - {g});
      FlatEntriesSize(m, ks - {g});
      FlatSize(m[g]);
      LeafSumRemove(m, ks, g);
    }
  }

  /** `flatten` yields exactly one row per leaf. */
  lemma {:induction false} FlatSize(v: Value)
    ensures |Flat(v)| == LeafCount(v)
    decreases v, 1
  {
    match v
    case Dict(m) => FlatEntriesSize(m, m.Keys);
    case _ =>
  }

  lemma FlatOne(k: string, v: Value)
    ensures Flat(Dict(map[k := v])) == Prefixed(k, Flat(v))
  {
    var m := map[k := v];
    assert m.Keys == {k};
    SortedKeysOne(k);
    assert Flat(Dict(m)) == FlatEntries(m, [k]);
    assert [k][..0] == [];
    assert FlatEntries(m, [k]) == FlatEntries(m, []) + Prefixed(k, Flat(m[k]));
  }

  lemma FlatEntriesPair(m: map<string, Value>, x: string, y: string)
    requires x in m && y in m
    ensures FlatEntries(m, [x, y]) == Prefixed(x, Flat(m[x])) + Prefixed(y, Flat(m[y]))
  {
    assert FlatEntries(m, [x, y]) == FlatEntries(m, [x]) + Prefixed(y, Flat(m[y])) by {
      assert [x, y][..1] == [x];
    }
    assert FlatEntries(m, [x]) == Prefixed(x, Flat(m[x])) by {
      assert [x][..0] == [];
    }
  }

  lemma FlatTwo(m: map<string, Value>, x: string, y: string)
    requires m.Keys == {x, y} && Below(x, y)
    ensures Flat(Dict(m)) == Prefixed(x, Flat(m[x])) + Prefixed(y, Flat(m[y]))
  {
    SortedKeysTwo(x, y);
    FlatEntriesPair(m, x, y);
  }

  lemma PrefixedLeaf(k: string, v: Value)
    requires !v.Dict?
    ensures Prefixed(k, Flat(v)) == [Row([k], v)]
  {
    assert Flat(v) == [Row([], v)];
    assert [k] + [] == [k];
  }

  lemma PrefixedOneRow(k: string, p: seq<string>, l: Value)
    ensures Prefixed(k, [Row(p, l)]) == [Row([k] + p, l)]
  {
  }

  /** The documented examples of `flatten`: a string leaf, a list leaf and a nested path. */
  lemma FlatStringExample()
    ensures Flat(Dict(map["a" := Str("b")])) == [Row(["a"], Str("b"))]
  {
    FlatOne("a", Str("b"));
    PrefixedLeaf("a", Str("b"));
  }

  lemma FlatListExample()
    ensures Flat(Dict(map["a" := List([Scalar("1"), Scalar("2"), Scalar("3")])]))
      == [Row(["a"], List([Scalar("1"), Scalar("2"), Scalar("3")]))]
  {
    var list := List([Scalar("1"), Scalar("2"), Scalar("3")]);
    FlatOne("a", list);
    PrefixedLeaf("a", list);
  }

  /** A single-entry dict over a value that flattens to one row gives that row, one key deeper. */
  lemma FlatOneRow(k: string, v: Value, p: seq<string>, l: Value)
    requires Flat(v) == [Row(p, l)]
    ensures Flat(Dict(map[k := v])) == [Row([k] + p, l)]
  {
    FlatOne(k, v);
    PrefixedOneRow(k, p, l);
  }

  /** A single key over a leaf gives one row with a one-key path. */
  lemma FlatLeafUnder(c: string, e: Value)
    requires !e.Dict?
    ensures Flat(Dict(map[c := e])) == [Row([c], e)]
  {
    FlatOneRow(c, e, [], e);
    assert [c] + [] == [c];
  }

  lemma FlatNestedTwo(b: string, c: string, e: Value)
    requires !e.Dict?
    ensures Flat(Dict(map[b := Dict(map[c := e])])) == [Row([b, c], e)]
  {
    FlatLeafUnder(c, e);
    FlatOneRow(b, Dict(map[c := e]), [c], e);
    assert [b] + [c] == [b, c];
  }

  /** Nested single-entry dicts collapse into one row whose path lists their keys outermost first. */
  lemma FlatNested(a: string, b: string, c: string, e: Value)
    requires !e.Dict?
    ensures Flat(Dict(map[a := Dict(map[b := Dict(map[c := e])])])) == [Row([a, b, c], e)]
  {
    FlatNestedTwo(b, c, e);
    FlatOneRow(a, Dict(map[b := Dict(map[c := e])]), [b, c], e);
    assert [a] + [b, c] == [a, b, c];
  }

  /** Two keys over leaves give two rows, the lesser key first. */
  lemma FlatTwoLeaves(x: string, y: string, u: Value, v: Value)
    requires Below(x, y) && !u.Dict? && !v.Dict?
    ensures Flat(Dict(map[x := u, y := v])) == [Row([x], u), Row([y], v)]
  {
    BelowIrreflexive(x);
    var inner := map[x := u, y := v];
    assert inner.Keys == {x, y};
    FlatTwo(inner, x, y);
    PrefixedLeaf(x, u);
    PrefixedLeaf(y, v);
  }

  lemma PrefixedTwoRows(k: string, p: seq<string>, l: Value, q: seq<string>, m: Value)
    ensures Prefixed(k, [Row(p, l), Row(q, m)]) == [Row([k] + p, l), Row([k] + q, m)]
  {
  }

  /** Two keys over values that flatten to known rows: the lesser key's rows come first. */
  lemma FlatTwoOver(a: string, b: string, va: Value, vb: Value, ra: seq<Row>, rb: seq<Row>)
    requires Below(a, b) && Flat(va) == ra && Flat(vb) == rb
    ensures Flat(Dict(map[a := va, b := vb])) == Prefixed(a, ra) + Prefixed(b, rb)
  {
    BelowIrreflexive(a);
    var outer := map[a := va, b := vb];
    assert outer.Keys == {a, b};
    FlatTwo(outer, a, b);
  }

  /** Prefixing the rows of two sibling blocks, as in the last documented example. */
  lemma SiblingRows(a: string, b: string, x: string, y: string, z: string, u: Value, v: Value, w: Value)
    ensures Prefixed(a, [Row([x], u), Row([y], v)]) + Prefixed(b, [Row([z], w)])
      == [Row([a, x], u), Row([a, y], v), Row([b, z], w)]
  {
    PrefixedTwoRows(a, [x], u, [y], v);
    PrefixedOneRow(b, [z], w);
    assert [a] + [x] == [a, x] && [a] + [y] == [a, y] && [b] + [z] == [b, z];
  }

  /** `{a: {x: u, y: v}, b: {z: w}}` gives `[[a, x, u], [a, y, v], [b, z, w]]`: sibling keys
      in ascending order at every level. */
  lemma FlatSiblings(a: string, b: string, x: string, y: string, z: string, u: Value, v: Value, w: Value)
    requires Below(a, b) && Below(x, y)
    requires !u.Dict? && !v.Dict? && !w.Dict?
    ensures Flat(Dict(map[a := Dict(map[x := u, y := v]), b := Dict(map[z := w])]))
      == [Row([a, x], u), Row([a, y], v), Row([b, z], w)]
  {
    FlatTwoLeaves(x, y, u, v);
    FlatLeafUnder(z, w);
    FlatTwoOver(a, b, Dict(map[x := u, y := v]), Dict(map[z := w]), [Row([x], u), Row([y], v)], [Row([z], w)]);
    SiblingRows(a, b, x, y, z, u, v, w);
  }
}
