/** `multidict_urlencode`: a nested dict as a query string of bracketed names. */
module UrlEncoding {
  import opened Wrappers
  import opened Values
  import opened Errors
  import opened KeyOrder
  import opened Flattening
  import opened Paths
  import opened Ordered

  /** The library behaviour the encoder relies on and that is not modelled here:
      `quote` is `quote_plus` (percent-encoding with `+` for spaces) and `show` is
      `str()` of a list or dict found inside a list value. */
  datatype Codec = Codec(quote: string -> string, show: Value -> string)

  /** `str(v)`. */
  function Text(v: Value, c: Codec): string
  {
    match v
    case Str(s) => s
    case Scalar(t) => t
    case _ => c.show(v)
  }

  ghost predicate NoDictValues(pairs: seq<(string, Value)>) {
    forall i :: 0 <= i < |pairs| ==> !pairs[i].1.Dict?
  }

  /** The `name=value` segments `urlencode(..., doseq=True)` emits for one pair: one per
      element of a list or tuple, one otherwise; name and value both quoted. */
  function PairSegments(name: string, v: Value, c: Codec): seq<string>
    requires !v.Dict?
  {
    var k := c.quote(name);
    match v
    case List(items) => seq(|items|, i requires 0 <= i < |items| => k + "=" + c.quote(Text(items[i], c)))
    case _ => [k + "=" + c.quote(Text(v, c))]
  }

  function Segments(pairs: seq<(string, Value)>, c: Codec): seq<string>
    requires NoDictValues(pairs)
  {
    if pairs == [] then []
    else PairSegments(pairs[0].0, pairs[0].1, c) + Segments(pairs[1..], c)
  }

  /** `"&".join(segs)`. */
  function JoinAmp(segs: seq<string>): string
  {
    if segs == [] then ""
    else if |segs| == 1 then segs[0]
    else segs[0] + "&" + JoinAmp(segs[1..])
  }

  /** `urlencode(pairs, doseq=True)`. */
  function Query(pairs: seq<(string, Value)>, c: Codec): string
    requires NoDictValues(pairs)
  {
    JoinAmp(Segments(pairs, c))
  }

  /** The parameter name of a row: its key path rendered, plus `[]` for a list or tuple leaf. */
  function NameOf(row: Row): string
    requires row.path != []
  {
    Parametrize(row.path) + if row.leaf.List? then "[]" else ""
  }

  ghost predicate Keyed(rows: seq<Row>) {
    forall r :: r in rows ==> r.path != []
  }

  /** The `OrderedDict` the loop of `multidict_urlencode` builds from the rows. */
  function Collect(rows: seq<Row>): (pairs: seq<(string, Value)>)
    requires Keyed(rows)
    ensures (forall r :: r in rows ==> !r.leaf.Dict?) ==> NoDictValues(pairs)
  {
    if rows == [] then []
    else
      var last := rows[|rows| - 1];
      var init := rows[..|rows| - 1];
      assert forall r :: r in init ==> r in rows;
      PutFrom(Collect(init), NameOf(last), last.leaf);
      Put(Collect(init), NameOf(last), last.leaf)
  }

  lemma CollectSnoc(rows: seq<Row>, i: nat)
    requires Keyed(rows) && i < |rows|
    ensures Keyed(rows[..i]) && Keyed(rows[..i + 1])
    ensures Collect(rows[..i + 1]) == Put(Collect(rows[..i]), NameOf(rows[i]), rows[i].leaf)
  {
    assert rows[..i + 1][..i] == rows[..i];
    assert forall r :: r in rows[..i + 1] ==> r in rows;
  }

  /** What `multidict_urlencode(params)` returns or raises. */
  function Urlencoded(params: Value, c: Codec): Result<string, Error>
  {
    match params
    case Dict(_) => Success(Query(Collect(Flat(params)), c))
    case _ => Failure(TypeError)
  }

  /** `multidict_urlencode` as it runs: type check, flatten, fill the ordered dict,
      encode. */
  method MultidictUrlencode(params: Value, c: Codec) returns (r: Result<string, Error>)
    ensures r.Failure? <==> !params.Dict?
    ensures r.Failure? ==> r.error == TypeError
    ensures r == Urlencoded(params, c)
  {
    if !params.Dict? {
      return Failure(TypeError);
    }
    var rows := Flatten(params);
    var urlParams := CollectParams(rows);
    return Success(Query(urlParams, c));
  }

  /** The loop of `multidict_urlencode`: pop each row's leaf, name the rest, and store the
      pair in the ordered dict. */
  method CollectParams(rows: seq<Row>) returns (urlParams: seq<(string, Value)>)
    requires Keyed(rows)
    ensures urlParams == Collect(rows)
  {
    urlParams := [];
    for i := 0 to |rows|
      invariant Keyed(rows[..i]) && urlParams == Collect(rows[..i])
    {
      CollectSnoc(rows, i);
      var value := rows[i].leaf;
      var name := Parametrize(rows[i].path);
      if value.List? {
        name := name + "[]";
      }
      assert name == NameOf(rows[i]);
      urlParams := Put(urlParams, name, value);
    }
    assert rows[..|rows|] == rows;
  }

  // ---------------------------------------------------------------------------
  // The names and values the ordered dict ends up with

  function RowNames(rows: seq<Row>): seq<string>
    requires Keyed(rows)
  {
    seq(|rows|, i requires 0 <= i < |rows| => NameOf(rows[i]))
  }

  lemma RowNamesSnoc(rows: seq<Row>)
    requires Keyed(rows) && rows != []
    ensures Keyed(rows[..|rows| - 1])
    ensures RowNames(rows) == RowNames(rows[..|rows| - 1]) + [NameOf(rows[|rows| - 1])]
  {
    assert forall r :: r in rows[..|rows| - 1] ==> r in rows;
  }

  lemma NamesStep(prev: seq<(string, Value)>, s: seq<string>, name: string, v: Value)
    requires Names(prev) == Dedup(s)
    ensures Names(Put(prev, name, v)) == Dedup(s + [name])
  {
    DedupSnoc(s, name);
    PutNames(prev, name, v);
  }

  /** Each name appears once, at the position of its first row. */
  lemma {:induction false} CollectNames(rows: seq<Row>)
    requires Keyed(rows)
    ensures Names(Collect(rows)) == Dedup(RowNames(rows))
  {
    if rows != [] {
      var n := |rows|;
      var init := rows[..n - 1];
      assert rows[..n] == rows;
      CollectSnoc(rows, n - 1);
      RowsPrefix(rows, n);
      CollectNames(init);
      var name := NameOf(rows[n - 1]);
      RowNamesSnoc(rows);
      NamesStep(Collect(init), RowNames(init), name, rows[n - 1].leaf);
    }
  }

  /** A repeated name holds the value of its last row. */
  lemma {:induction false} CollectLastWins(rows: seq<Row>, i: nat)
    requires Keyed(rows)
    requires i < |rows|
    requires forall j :: i < j < |rows| ==> NameOf(rows[j]) != NameOf(rows[i])
    ensures Get(Collect(rows), NameOf(rows[i])) == Some(rows[i].leaf)
  {
    var init := rows[..|rows| - 1];
    assert forall r :: r in init ==> r in rows;
    if i < |rows| - 1 {
      CollectLastWins(init, i);
      PutOther(Collect(init), NameOf(rows[|rows| - 1]), rows[|rows| - 1].leaf, NameOf(rows[i]));
    }
  }

  /** The pairs when every row has its own name: one per row, in row order. */
  function RowPairs(rows: seq<Row>): seq<(string, Value)>
    requires Keyed(rows)
  {
    seq(|rows|, i requires 0 <= i < |rows| => (NameOf(rows[i]), rows[i].leaf))
  }

  lemma RowsPrefix(rows: seq<Row>, n: nat)
    requires Keyed(rows) && 0 < n <= |rows|
    ensures Keyed(rows[..n - 1])
    ensures RowNames(rows[..n - 1]) == RowNames(rows[..n])[..n - 1]
    ensures RowPairs(rows[..n]) == RowPairs(rows[..n - 1]) + [(NameOf(rows[n - 1]), rows[n - 1].leaf)]
    ensures Names(RowPairs(rows[..n - 1])) == RowNames(rows[..n - 1])
  {
    assert forall r :: r in rows[..n - 1] ==> r in rows;
  }

  lemma {:induction false} CollectWithoutCollisions(rows: seq<Row>)
    requires Keyed(rows)
    requires Distinct(RowNames(rows))
    ensures Collect(rows) == RowPairs(rows)
  {
    if rows != [] {
      var n := |rows|;
      var init := rows[..n - 1];
      assert rows[..n] == rows;
      RowsPrefix(rows, n);
      CollectWithoutCollisions(init);
      var name := NameOf(rows[n - 1]);
      assert name == RowNames(rows)[n - 1];
      assert name !in RowNames(init);
      CollectSnoc(rows, n - 1);
      PutNew(Collect(init), name, rows[n - 1].leaf);
    }
  }

  // ---------------------------------------------------------------------------
  // With bracket-free keys no two rows collide

  ghost predicate KeysBracketFree(v: Value)
    decreases v
  {
    match v
    case Dict(m) => forall k :: k in m ==> BracketFree(k) && KeysBracketFree(m[k])
    case _ => true
  }

  lemma {:induction false} LookupBracketFree(v: Value, p: seq<string>)
    requires KeysBracketFree(v)
    requires Lookup(v, p).Some?
    ensures forall s :: s in p ==> BracketFree(s)
    decreases |p|
  {
    if p != [] {
      LookupBracketFree(v.entries[p[0]], p[1..]);
      assert p == [p[0]] + p[1..];
    }
  }

  lemma {:induction false} LookupBeyondLeaf(v: Value, p: seq<string>, x: string)
    requires Lookup(v, p).Some? && !Lookup(v, p).value.Dict?
    ensures Lookup(v, p + [x]) == None
    decreases |p|
  {
    if p != [] {
      assert (p + [x])[1..] == p[1..] + [x];
      LookupBeyondLeaf(v.entries[p[0]], p[1..], x);
    }
  }

  /** The name of a row is the rendering of its path, extended by an empty segment for a list. */
  function NamedPath(row: Row): seq<string>
  {
    row.path + if row.leaf.List? then [""] else []
  }

  lemma NameOfNamedPath(row: Row)
    requires row.path != []
    ensures NameOf(row) == Parametrize(NamedPath(row))
  {
    if row.leaf.List? {
      ParametrizeSnoc(row.path, "");
      assert "[" + "" + "]" == "[]";
    } else {
      assert NamedPath(row) == row.path;
    }
  }

  /** When no key holds a bracket, distinct rows of `flatten` get distinct parameter names,
      so nothing in the ordered dict is overwritten. */
  lemma NamesDistinctWhenBracketFree(m: map<string, Value>)
    requires KeysBracketFree(Dict(m))
    ensures Distinct(RowNames(Flat(Dict(m))))
  {
    var v := Dict(m);
    var rows := Flat(v);
    FlatGroupedByKey(m);
    forall i, j | 0 <= i < j < |rows| ensures NameOf(rows[i]) != NameOf(rows[j]) {
      assert rows[i] in rows && rows[j] in rows;
      assert rows[i].path != rows[j].path;
      DistinctRowsDistinctNames(v, rows[i], rows[j]);
    }
  }

  lemma NamedPathBracketFree(v: Value, a: Row)
    requires KeysBracketFree(v)
    requires a in Flat(v)
    ensures forall s :: s in NamedPath(a) ==> BracketFree(s)
  {
    FlatMembership(v, a.path, a.leaf);
    LookupBracketFree(v, a.path);
  }

  lemma DistinctRowsDistinctNames(v: Value, a: Row, b: Row)
    requires KeysBracketFree(v)
    requires a in Flat(v) && b in Flat(v)
    requires a.path != [] && b.path != []
    ensures NameOf(a) == NameOf(b) ==> a.path == b.path
  {
    if NameOf(a) == NameOf(b) {
      NamedPathBracketFree(v, a);
      NamedPathBracketFree(v, b);
      NameOfNamedPath(a);
      NameOfNamedPath(b);
      ParametrizeInjective(NamedPath(a), NamedPath(b));
      if a.leaf.List? {
        ListLeafNameUnclaimed(v, a, b);
      } else if b.leaf.List? {
        ListLeafNameUnclaimed(v, b, a);
      } else {
        assert NamedPath(a) == a.path && NamedPath(b) == b.path;
      }
    }
  }

  /** A list leaf's name cannot be claimed by another row: that row would need a path
      running through the list. */
  lemma ListLeafNameUnclaimed(v: Value, a: Row, b: Row)
    requires a in Flat(v) && b in Flat(v)
    requires a.leaf.List?
    ensures NamedPath(a) == NamedPath(b) ==> a.path == b.path
  {
    if NamedPath(a) == NamedPath(b) {
      if b.leaf.List? {
        assert a.path == NamedPath(a)[..|NamedPath(a)| - 1];
        assert b.path == NamedPath(b)[..|NamedPath(b)| - 1];
      } else {
        assert Row(a.path, a.leaf) == a && Row(b.path, b.leaf) == b;
        FlatMembership(v, a.path, a.leaf);
        FlatMembership(v, b.path, b.leaf);
        assert b.path == a.path + [""];
        LookupBeyondLeaf(v, a.path, "");
        assert false;
      }
    }
  }

  /** So for such a dict the query holds one entry per row of `flatten`, in its order. */
  lemma UrlencodedWithoutCollisions(m: map<string, Value>, c: Codec)
    requires KeysBracketFree(Dict(m))
    ensures NoDictValues(RowPairs(Flat(Dict(m))))
    ensures Urlencoded(Dict(m), c) == Success(Query(RowPairs(Flat(Dict(m))), c))
  {
    NamesDistinctWhenBracketFree(m);
    CollectWithoutCollisions(Flat(Dict(m)));
  }

  // ---------------------------------------------------------------------------
  // Reading the query back

  /** The (name, text) pairs the query is meant to carry: one per list element, one otherwise. */
  function Expected(pairs: seq<(string, Value)>, c: Codec): seq<(string, string)>
  {
    if pairs == [] then []
    else
      var (name, v) := pairs[0];
      var here := match v
        case List(items) => seq(|items|, i requires 0 <= i < |items| => (name, Text(items[i], c)))
        case _ => [(name, Text(v, c))];
      here + Expected(pairs[1..], c)
  }

  /** The pieces of `s` between `&` separators. */
  function SplitAmp(s: string): seq<string>
    decreases |s|
  {
    var i := IndexOf(s, '&');
    if i == |s| then [s] else [s[..i]] + SplitAmp(s[i + 1..])
  }

  /** One `name=value` piece, split at its first `=` and unquoted. */
  function DecodeSegment(seg: string, unquote: string -> string): (string, string)
  {
    var i := IndexOf(seg, '=');
    (unquote(seg[..i]), unquote(if i < |seg| then seg[i + 1..] else ""))
  }

  /** A standard query decoder that keeps blank values. */
  function DecodeQuery(q: string, unquote: string -> string): seq<(string, string)>
  {
    if q == "" then []
    else
      var segs := SplitAmp(q);
      seq(|segs|, i requires 0 <= i < |segs| => DecodeSegment(segs[i], unquote))
  }

  lemma {:induction false} SegmentsShape(pairs: seq<(string, Value)>, c: Codec)
    requires NoDictValues(pairs)
    ensures |Segments(pairs, c)| == |Expected(pairs, c)|
    ensures forall i :: 0 <= i < |Segments(pairs, c)| ==>
      Segments(pairs, c)[i] == c.quote(Expected(pairs, c)[i].0) + "=" + c.quote(Expected(pairs, c)[i].1)
  {
    if pairs != [] {
      SegmentsShape(pairs[1..], c);
    }
  }

  lemma {:induction false} SplitJoin(segs: seq<string>)
    requires segs != []
    requires forall s :: s in segs ==> '&' !in s
    ensures SplitAmp(JoinAmp(segs)) == segs
    decreases |segs|
  {
    if |segs| == 1 {
      IndexOfAbsent(segs[0], '&');
    } else {
      var rest := JoinAmp(segs[1..]);
      IndexOfAt(segs[0], '&', rest);
      var s := segs[0] + "&" + rest;
      assert s[..|segs[0]|] == segs[0] && s[|segs[0]| + 1..] == rest;
      SplitJoin(segs[1..]);
      assert segs == [segs[0]] + segs[1..];
    }
  }

  lemma {:induction false} JoinStartsWith(segs: seq<string>)
    requires segs != []
    ensures |JoinAmp(segs)| >= |segs[0]| && JoinAmp(segs)[..|segs[0]|] == segs[0]
    decreases |segs|
  {
    if |segs| > 1 {
      JoinStartsWith(segs[1..]);
    }
  }

  /** Decoding the query gives back every name with every value, in order, provided the
      quoting never emits `&` or `=` and is undone by `unquote`. */
  lemma QueryRoundTrip(pairs: seq<(string, Value)>, c: Codec, unquote: string -> string)
    requires NoDictValues(pairs)
    requires forall s :: unquote(c.quote(s)) == s
    requires forall s :: '&' !in c.quote(s) && '=' !in c.quote(s)
    ensures DecodeQuery(Query(pairs, c), unquote) == Expected(pairs, c)
  {
    var segs := Segments(pairs, c);
    var want := Expected(pairs, c);
    SegmentsShape(pairs, c);
    if segs != [] {
      var a, b := c.quote(want[0].0), c.quote(want[0].1);
      assert segs[0] == a + "=" + b;
      JoinStartsWith(segs);
      assert JoinAmp(segs) != "" by {
        assert |JoinAmp(segs)| >= |segs[0]| > 0;
      }
      forall s | s in segs ensures '&' !in s {
        var i :| 0 <= i < |segs| && segs[i] == s;
        var x, y := c.quote(want[i].0), c.quote(want[i].1);
        assert s == x + "=" + y;
      }
      SplitJoin(segs);
      var dec := DecodeQuery(Query(pairs, c), unquote);
      forall i | 0 <= i < |segs| ensures dec[i] == want[i] {
        var x, y := c.quote(want[i].0), c.quote(want[i].1);
        IndexOfAt(x, '=', y);
        var s := x + "=" + y;
        assert s[..|x|] == x && s[|x| + 1..] == y;
      }
    }
  }

  // ---------------------------------------------------------------------------
  // Examples

  lemma CollectOneRow(k: string, v: Value)
    requires !v.List?
    ensures Keyed([Row([k], v)])
    ensures Collect([Row([k], v)]) == [(k, v)]
  {
    var row := Row([k], v);
    assert NameOf(row) == k;
    assert [row][..0] == [];
  }

  lemma CollectOneListRow(k: string, items: seq<Value>)
    ensures Keyed([Row([k], List(items))])
    ensures Collect([Row([k], List(items))]) == [(k + "[]", List(items))]
  {
    var row := Row([k], List(items));
    assert Parametrize(row.path) == k;
    assert [row][..0] == [];
  }

  /** A one-key dict over a plain value encodes as a single quoted `name=value`. */
  lemma UrlencodedSingle(k: string, v: Value, c: Codec)
    requires !v.Dict? && !v.List?
    ensures Urlencoded(Dict(map[k := v]), c) == Success(c.quote(k) + "=" + c.quote(Text(v, c)))
  {
    FlatLeafUnder(k, v);
    CollectOneRow(k, v);
    assert Segments([(k, v)], c) == [c.quote(k) + "=" + c.quote(Text(v, c))] by {
      assert [(k, v)][1..] == [];
    }
  }

  /** A list value is sent as one `name[]=element` segment per element, in order. */
  lemma UrlencodedList(k: string, items: seq<Value>, c: Codec)
    ensures Urlencoded(Dict(map[k := List(items)]), c)
      == Success(JoinAmp(seq(|items|, i requires 0 <= i < |items| => c.quote(k + "[]") + "=" + c.quote(Text(items[i], c)))))
  {
    FlatLeafUnder(k, List(items));
    CollectOneListRow(k, items);
    var pairs := [(k + "[]", List(items))];
    assert Segments(pairs, c) == PairSegments(k + "[]", List(items), c) by {
      assert pairs[1..] == [];
    }
  }
}
