/** `parametrize`: a key path rendered as `a[b][c]`. */
module Paths {
  import opened Wrappers

  /** `"".join("[" + p + "]" for p in segs)`. */
  function Bracketed(segs: seq<string>): string
  {
    if segs == [] then "" else "[" + segs[0] + "]" + Bracketed(segs[1..])
  }

  /** `parametrize(path)`: the first segment bare, each later one in brackets. `parametrize`
      indexes `params[0]`, so an empty path is a precondition violation. */
  function Parametrize(path: seq<string>): string
    requires |path| > 0
  {
    path[0] + Bracketed(path[1..])
  }

  /** A key that can be read back out of a bracketed name. */
  predicate BracketFree(s: string) {
    '[' !in s && ']' !in s
  }

  /** The position of the first `c` in `s`, or `|s|` when there is none. */
  function IndexOf(s: string, c: char): (i: nat)
    ensures i <= |s|
    ensures i < |s| ==> s[i] == c
    ensures c !in s[..i]
  {
    if s == [] then 0
    else if s[0] == c then 0
    else
      var i := 1 + IndexOf(s[1..], c);
      assert s[..i] == [s[0]] + s[1..][..i - 1];
      i
  }

  /** Reads `[s1][s2]...` back into its segments. */
  function ParseGroups(t: string): Option<seq<string>>
    decreases |t|
  {
    if t == [] then Some([])
    else if t[0] != '[' then None
    else
      var j := IndexOf(t[1..], ']');
      if j == |t| - 1 then None
      else
        var seg := t[1..j + 1];
        if '[' in seg then None
        else match ParseGroups(t[j + 2..])
          case None => None
          case Some(rest) => Some([seg] + rest)
  }

  /** Reads a bracketed name back into its key path; the inverse of `Parametrize`. */
  function Unparametrize(s: string): Option<seq<string>>
  {
    var i := IndexOf(s, '[');
    var head := s[..i];
    if ']' in head then None
    else match ParseGroups(s[i..])
      case None => None
      case Some(segs) => Some([head] + segs)
  }

  lemma IndexOfAt(a: string, c: char, b: string)
    requires c !in a
    ensures IndexOf(a + [c] + b, c) == |a|
  {
    var s := a + [c] + b;
    assert s[|a|] == c;
  }

  lemma IndexOfAbsent(a: string, c: char)
    requires c !in a
    ensures IndexOf(a, c) == |a|
  {
  }

  lemma {:induction false} ParseBracketed(segs: seq<string>)
    requires forall s :: s in segs ==> BracketFree(s)
    ensures ParseGroups(Bracketed(segs)) == Some(segs)
    decreases |segs|
  {
    if segs != [] {
      var s0, rest := segs[0], segs[1..];
      var t := Bracketed(segs);
      assert t == "[" + s0 + "]" + Bracketed(rest);
      assert t[1..] == s0 + "]" + Bracketed(rest);
      assert BracketFree(s0);
      IndexOfAt(s0, ']', Bracketed(rest));
      assert t[1..|s0| + 1] == s0;
      assert t[|s0| + 2..] == Bracketed(rest);
      ParseBracketed(rest);
      assert [s0] + rest == segs;
    }
  }

  /** A path of bracket-free keys is recovered exactly from its rendered name. */
  lemma ParametrizeRoundTrip(path: seq<string>)
    requires |path| > 0
    requires forall s :: s in path ==> BracketFree(s)
    ensures Unparametrize(Parametrize(path)) == Some(path)
  {
    var head, rest := path[0], path[1..];
    var b := Bracketed(rest);
    var s := head + b;
    assert BracketFree(head);
    if rest == [] {
      IndexOfAbsent(head, '[');
      assert s == head && s[|head|..] == [];
    } else {
      assert b == "[" + rest[0] + "]" + Bracketed(rest[1..]);
      assert s == head + ['['] + b[1..];
      IndexOfAt(head, '[', b[1..]);
      assert s[|head|..] == b;
    }
    assert s[..|head|] == head;
    ParseBracketed(rest);
    assert [head] + rest == path;
  }

  /** Different bracket-free paths never render to the same name. */
  lemma ParametrizeInjective(p: seq<string>, q: seq<string>)
    requires |p| > 0 && |q| > 0
    requires forall s :: s in p ==> BracketFree(s)
    requires forall s :: s in q ==> BracketFree(s)
    requires Parametrize(p) == Parametrize(q)
    ensures p == q
  {
    ParametrizeRoundTrip(p);
    ParametrizeRoundTrip(q);
  }

  lemma {:induction false} BracketedSnoc(segs: seq<string>, s: string)
    ensures Bracketed(segs + [s]) == Bracketed(segs) + "[" + s + "]"
    decreases |segs|
  {
    if segs != [] {
      assert (segs + [s])[1..] == segs[1..] + [s];
      BracketedSnoc(segs[1..], s);
    }
  }

  /** Each further segment is appended, in order, as `[segment]`. */
  lemma ParametrizeSnoc(path: seq<string>, s: string)
    requires |path| > 0
    ensures Parametrize(path + [s]) == Parametrize(path) + "[" + s + "]"
  {
    assert (path + [s])[1..] == path[1..] + [s];
    BracketedSnoc(path[1..], s);
  }

  /** The three documented renderings. */
  lemma ParametrizeExamples()
    ensures Parametrize(["a"]) == "a"
    ensures Parametrize(["a", "b"]) == "a[b]"
    ensures Parametrize(["a", "b", "c"]) == "a[b][c]"
  {
  }
}
