/** Insertion-ordered dicts (`dict` and `OrderedDict`) as sequences of (key, value) pairs. */
module Ordered {
  import opened Wrappers

  /** The keys in iteration order. */
  function Names<V>(pairs: seq<(string, V)>): seq<string>
  {
    seq(|pairs|, i requires 0 <= i < |pairs| => pairs[i].0)
  }

  predicate Distinct(s: seq<string>) {
    forall i, j :: 0 <= i < j < |s| ==> s[i] != s[j]
  }

  lemma NamesSnoc<V>(pairs: seq<(string, V)>, k: string, v: V)
    ensures Names(pairs + [(k, v)]) == Names(pairs) + [k]
  {
  }

  /** `d.get(k)`. */
  function Get<V>(pairs: seq<(string, V)>, k: string): Option<V>
  {
    if pairs == [] then None
    else if pairs[0].0 == k then Some(pairs[0].1)
    else Get(pairs[1..], k)
  }

  /** `d[k] = v`: a present key keeps its position and takes the new value, a new key goes last. */
  function Put<V>(pairs: seq<(string, V)>, k: string, v: V): (r: seq<(string, V)>)
    ensures Get(r, k) == Some(v)
  {
    if pairs == [] then [(k, v)]
    else if pairs[0].0 == k then [(k, v)] + pairs[1..]
    else [pairs[0]] + Put(pairs[1..], k, v)
  }

  /** Every other key reads as before. */
  lemma {:induction false} PutOther<V>(pairs: seq<(string, V)>, k: string, v: V, o: string)
    requires o != k
    ensures Get(Put(pairs, k, v), o) == Get(pairs, o)
  {
    if pairs != [] && pairs[0].0 != k {
      PutOther(pairs[1..], k, v, o);
    }
  }

  /** Every pair afterwards is an old pair or the new one. */
  lemma {:induction false} PutFrom<V>(pairs: seq<(string, V)>, k: string, v: V)
    ensures forall i :: 0 <= i < |Put(pairs, k, v)| ==> Put(pairs, k, v)[i] in pairs || Put(pairs, k, v)[i] == (k, v)
  {
    if pairs != [] && pairs[0].0 != k {
      PutFrom(pairs[1..], k, v);
      var r := Put(pairs, k, v);
      forall i | 0 <= i < |r| ensures r[i] in pairs || r[i] == (k, v) {
        if i > 0 {
          assert r[i] == Put(pairs[1..], k, v)[i - 1];
        }
      }
    }
  }

  /** A new key goes last, after every existing pair. */
  lemma {:induction false} PutNew<V>(pairs: seq<(string, V)>, k: string, v: V)
    requires k !in Names(pairs)
    ensures Put(pairs, k, v) == pairs + [(k, v)]
  {
    if pairs != [] {
      assert Names(pairs) == [pairs[0].0] + Names(pairs[1..]);
      PutNew(pairs[1..], k, v);
      assert pairs == [pairs[0]] + pairs[1..];
    }
  }

  /** A present key keeps the names as they are; a new one is added last. */
  lemma {:induction false} PutNames<V>(pairs: seq<(string, V)>, k: string, v: V)
    ensures Names(Put(pairs, k, v)) == if k in Names(pairs) then Names(pairs) else Names(pairs) + [k]
  {
    if k !in Names(pairs) {
      PutNew(pairs, k, v);
      NamesSnoc(pairs, k, v);
    } else if pairs[0].0 == k {
      assert Names([(k, v)] + pairs[1..]) == Names(pairs);
    } else {
      assert Names(pairs) == [pairs[0].0] + Names(pairs[1..]);
      PutNames(pairs[1..], k, v);
      assert Names([pairs[0]] + Put(pairs[1..], k, v)) == [pairs[0].0] + Names(Put(pairs[1..], k, v));
    }
  }

  lemma {:induction false} GetNone<V>(pairs: seq<(string, V)>, k: string)
    ensures Get(pairs, k).None? <==> k !in Names(pairs)
  {
    if pairs != [] {
      assert Names(pairs) == [pairs[0].0] + Names(pairs[1..]);
      GetNone(pairs[1..], k);
    }
  }

  /** First occurrences only, in order of first occurrence. */
  function Dedup(s: seq<string>): (r: seq<string>)
    ensures Distinct(r)
    ensures forall x :: x in r <==> x in s
  {
    if s == [] then []
    else
      var d := Dedup(s[..|s| - 1]);
      var x := s[|s| - 1];
      assert forall y :: y in s <==> y in s[..|s| - 1] || y == x by {
        assert s == s[..|s| - 1] + [x];
      }
      if x in d then d else d + [x]
  }

  lemma DedupSnoc(s: seq<string>, x: string)
    ensures Dedup(s + [x]) == if x in Dedup(s) then Dedup(s) else Dedup(s) + [x]
  {
    assert (s + [x])[..|s|] == s;
  }
}
