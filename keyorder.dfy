/** Python's ordering of `str` keys and the ascending key order that `sorted` gives. */
module KeyOrder {
  /** `a < b` on Python strings: lexicographic by code point, a proper prefix first. */
  predicate Below(a: string, b: string)
    decreases |a|
  {
    if |a| == 0 then |b| > 0
    else if |b| == 0 then false
    else if a[0] == b[0] then Below(a[1..], b[1..])
    else a[0] < b[0]
  }

  lemma {:induction false} BelowIrreflexive(a: string)
    ensures !Below(a, a)
    decreases |a|
  {
    if |a| > 0 { BelowIrreflexive(a[1..]); }
  }

  lemma {:induction false} BelowAsymmetric(a: string, b: string)
    ensures !(Below(a, b) && Below(b, a))
    decreases |a|
  {
    if |a| > 0 && |b| > 0 && a[0] == b[0] { BelowAsymmetric(a[1..], b[1..]); }
  }

  lemma {:induction false} BelowTransitive(a: string, b: string, c: string)
    requires Below(a, b) && Below(b, c)
    ensures Below(a, c)
    decreases |a|
  {
    if |a| > 0 && a[0] == b[0] && b[0] == c[0] { BelowTransitive(a[1..], b[1..], c[1..]); }
  }

  lemma {:induction false} BelowTotal(a: string, b: string)
    ensures a == b || Below(a, b) || Below(b, a)
    decreases |a|
  {
    if |a| > 0 && |b| > 0 && a[0] == b[0] {
      BelowTotal(a[1..], b[1..]);
      if a[1..] == b[1..] {
        assert a == [a[0]] + a[1..] && b == [b[0]] + b[1..];
      }
    }
  }

  predicate IsGreatest(k: string, ks: set<string>) {
    k in ks && forall o :: o in ks && o != k ==> Below(o, k)
  }

  lemma {:induction false} GreatestExists(ks: set<string>)
    requires ks != {}
    ensures exists k :: IsGreatest(k, ks)
    decreases |ks|
  {
    var x :| x in ks;
    if ks == {x} {
      assert IsGreatest(x, ks);
    } else {
      GreatestExists(ks - {x});
      var g :| IsGreatest(g, ks - {x});
      BelowTotal(x, g);
      if Below(x, g) {
        assert IsGreatest(g, ks);
      } else {
        forall o | o in ks && o != x ensures Below(o, x) {
          if o != g { BelowTransitive(o, g, x); }
        }
        assert IsGreatest(x, ks);
      }
    }
  }

  lemma GreatestUnique(ks: set<string>)
    ensures forall k, k' :: IsGreatest(k, ks) && IsGreatest(k', ks) ==> k == k'
  {
    forall k, k' | IsGreatest(k, ks) && IsGreatest(k', ks) ensures k == k' {
      BelowAsymmetric(k, k');
    }
  }

  /** The largest key of a non-empty key set. */
  function Greatest(ks: set<string>): (k: string)
    requires ks != {}
    ensures k in ks
    ensures forall o :: o in ks && o != k ==> Below(o, k)
  {
    GreatestExists(ks);
    GreatestUnique(ks);
    var k :| IsGreatest(k, ks); k
  }

  /** Every element strictly below every later one. */
  ghost predicate StrictlySorted(s: seq<string>) {
    forall i, j :: 0 <= i < j < |s| ==> Below(s[i], s[j])
  }

  /** The keys of a dict in the order `sorted(d.items())` visits them. */
  function SortedKeys(ks: set<string>): (r: seq<string>)
    ensures |r| == |ks|
    ensures forall k :: k in r <==> k in ks
    ensures StrictlySorted(r)
    decreases |ks|
  {
    if ks == {} then []
    else
      var g := Greatest(ks);
      SortedKeys(ks - {g}) + [g]
  }

  lemma SortedDropLast(s: seq<string>)
    requires StrictlySorted(s) && s != []
    ensures StrictlySorted(s[..|s| - 1])
    ensures forall k :: k in s[..|s| - 1] <==> k in s && k != s[|s| - 1]
    ensures forall k :: k in s && k != s[|s| - 1] ==> Below(k, s[|s| - 1])
  {
    var n := |s|;
    BelowIrreflexive(s[n - 1]);
    forall k | k in s && k != s[n - 1] ensures k in s[..n - 1] && Below(k, s[n - 1]) {
      var i :| 0 <= i < n && s[i] == k;
    }
    var init := s[..n - 1];
    forall k | k in init ensures k != s[n - 1] {
      var i :| 0 <= i < n - 1 && init[i] == k;
      assert Below(s[i], s[n - 1]);
    }
  }

  lemma NonEmptyTogether(s: seq<string>, t: seq<string>)
    requires forall k :: k in s ==> k in t
    ensures s != [] ==> t != []
  {
    if s != [] { assert s[0] in t; }
  }

  /** Ascending order is the only strictly sorted arrangement of a key set. */
  lemma {:induction false} SortedUnique(s: seq<string>, t: seq<string>)
    requires StrictlySorted(s) && StrictlySorted(t)
    requires forall k :: k in s <==> k in t
    ensures s == t
    decreases |s|
  {
    NonEmptyTogether(s, t);
    NonEmptyTogether(t, s);
    if s != [] {
      SortedDropLast(s);
      SortedDropLast(t);
      var a, b := s[|s| - 1], t[|t| - 1];
      assert a == b by {
        assert a in t && b in s;
        if a != b {
          BelowAsymmetric(a, b);
          assert false;
        }
      }
      var s', t' := s[..|s| - 1], t[..|t| - 1];
      forall k ensures k in s' <==> k in t' {
        assert k in s' <==> k in s && k != a;
        assert k in t' <==> k in t && k != b;
      }
      SortedUnique(s', t');
      assert s == s[..|s| - 1] + [a] && t == t[..|t| - 1] + [b];
    }
  }

  lemma SortedKeysOne(x: string)
    ensures SortedKeys({x}) == [x]
  {
    var r := SortedKeys({x});
    assert r[0] in {x};
  }

  lemma SortedKeysTwo(x: string, y: string)
    requires Below(x, y)
    ensures SortedKeys({x, y}) == [x, y]
  {
    SortedUnique(SortedKeys({x, y}), [x, y]);
  }

  /** The dict `{"b": .., "a": ..}` is visited as "a" then "b", whatever order it was built in. */
  lemma SortedKeysExample()
    ensures SortedKeys({"b", "a"}) == ["a", "b"]
  {
    assert {"b", "a"} == {"a", "b"};
    SortedKeysTwo("a", "b");
  }
}
