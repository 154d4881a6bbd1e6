/**
 * Selecting the first `n` elements of a collection in descending order of a key, ties broken
 * by a secondary rank.  This is the ordering of `Counter.most_common(n)` (count descending,
 * ties in first-encountered order) and of `ORDER BY llm_score DESC LIMIT n`.
 */
module TopK {

  /** `a` comes before `b`: a larger key, or an equal key and a smaller tie rank. */
  predicate Better<T>(key: T -> real, tie: T -> int, a: T, b: T)
  {
    key(a) > key(b) || (key(a) == key(b) && tie(a) < tie(b))
  }

  predicate Distinct<T(==)>(s: seq<T>)
  {
    forall i, j :: 0 <= i < j < |s| ==> s[i] != s[j]
  }

  /** Different elements have different tie ranks, so `Better` is a strict total order on them. */
  predicate TieInjective<T(==)>(s: seq<T>, tie: T -> int)
  {
    forall x, y :: x in s && y in s && x != y ==> tie(x) != tie(y)
  }

  /** The element that comes before every other one. */
  function Best<T(==)>(cands: seq<T>, key: T -> real, tie: T -> int): (b: T)
    requires |cands| > 0
    requires TieInjective(cands, tie)
    ensures b in cands
    ensures forall c :: c in cands && c != b ==> Better(key, tie, b, c)
  {
    if |cands| == 1 then cands[0]
    else
      var rest := cands[1..];
      assert forall c :: c in rest ==> c in cands;
      var b := Best(rest, key, tie);
      assert forall c :: c in cands ==> c == cands[0] || c in rest;
      assert cands[0] != b ==> tie(cands[0]) != tie(b);
      if Better(key, tie, cands[0], b) then cands[0] else b
  }

  /** `s` with every occurrence of `x` removed, the rest in order. */
  function Without<T(==)>(s: seq<T>, x: T): (r: seq<T>)
    ensures forall y :: y in r ==> y in s && y != x
    ensures forall y :: y in s && y != x ==> y in r
    ensures x !in s ==> r == s
    ensures Distinct(s) ==> Distinct(r)
    ensures Distinct(s) && x in s ==> |r| == |s| - 1
  {
    if |s| == 0 then []
    else
      var rest := Without(s[1..], x);
      assert Distinct(s) ==> Distinct(s[1..]);
      assert x !in s ==> s == [s[0]] + s[1..];
      if s[0] == x then rest
      else
        assert Distinct(s) ==> s[0] !in rest;
        DistinctCons(s[0], rest);
        [s[0]] + rest
  }

  lemma DistinctCons<T>(a: T, s: seq<T>)
    ensures Distinct(s) && a !in s ==> Distinct([a] + s)
  {
    if Distinct(s) && a !in s {
      forall i, j | 0 <= i < j < |[a] + s| ensures ([a] + s)[i] != ([a] + s)[j] {
        if i == 0 { assert ([a] + s)[j] == s[j - 1]; }
      }
    }
  }

  lemma DistinctSnoc<T>(s: seq<T>, a: T)
    requires Distinct(s) && a !in s
    ensures Distinct(s + [a])
  {
    forall i, j | 0 <= i < j < |s + [a]| ensures (s + [a])[i] != (s + [a])[j] {
      assert (s + [a])[i] == s[i];
    }
  }

  /**
   * The first `n` elements in `Better` order: as many as there are (up to `n`), all taken from
   * `cands`, each before the next, each before every element left out, and all of `cands`
   * when `n` is large enough.
   */
  function TopBy<T(==)>(cands: seq<T>, key: T -> real, tie: T -> int, n: nat): (r: seq<T>)
    requires Distinct(cands) && TieInjective(cands, tie)
    ensures |r| == if n < |cands| then n else |cands|
    ensures forall x :: x in r ==> x in cands
    ensures forall i, j :: 0 <= i < j < |r| ==> Better(key, tie, r[i], r[j])
    ensures forall x, i :: x in cands && x !in r && 0 <= i < |r| ==> Better(key, tie, r[i], x)
    ensures n >= |cands| ==> forall x :: x in cands ==> x in r
    decreases n
  {
    if n == 0 || |cands| == 0 then []
    else
      var b := Best(cands, key, tie);
      var rest := Without(cands, b);
      var tail := TopBy(rest, key, tie, n - 1);
      TopByStep(cands, key, tie, n, b, rest, tail);
      [b] + tail
  }

  /** One step of `TopBy`: the best element followed by the top of the rest. */
  lemma TopByStep<T>(cands: seq<T>, key: T -> real, tie: T -> int, n: nat, b: T, rest: seq<T>, tail: seq<T>)
    requires n > 0 && b in cands
    requires forall c :: c in cands && c != b ==> Better(key, tie, b, c)
    requires forall y :: y in rest ==> y in cands && y != b
    requires forall y :: y in cands && y != b ==> y in rest
    requires |rest| == |cands| - 1
    requires |tail| == if n - 1 < |rest| then n - 1 else |rest|
    requires forall x :: x in tail ==> x in rest
    requires forall i, j :: 0 <= i < j < |tail| ==> Better(key, tie, tail[i], tail[j])
    requires forall x, i :: x in rest && x !in tail && 0 <= i < |tail| ==> Better(key, tie, tail[i], x)
    requires n - 1 >= |rest| ==> forall x :: x in rest ==> x in tail
    ensures var r := [b] + tail;
      && |r| == (if n < |cands| then n else |cands|)
      && (forall x :: x in r ==> x in cands)
      && (forall i, j :: 0 <= i < j < |r| ==> Better(key, tie, r[i], r[j]))
      && (forall x, i :: x in cands && x !in r && 0 <= i < |r| ==> Better(key, tie, r[i], x))
      && (n >= |cands| ==> forall x :: x in cands ==> x in r)
  {
    var r := [b] + tail;
    forall i, j | 0 <= i < j < |r| ensures Better(key, tie, r[i], r[j]) {
      assert r[j] == tail[j - 1];
      if i > 0 {
        assert r[i] == tail[i - 1];
      } else {
        assert tail[j - 1] in rest;
      }
    }
    forall x, i | x in cands && x !in r && 0 <= i < |r| ensures Better(key, tie, r[i], x) {
      assert x != b && x in rest && x !in tail;
      if i > 0 {
        assert r[i] == tail[i - 1];
      }
    }
    if n >= |cands| {
      forall x | x in cands ensures x in r {
        if x != b {
          assert x in rest;
        }
      }
    }
  }

  /** `Better` is irreflexive, so a `TopBy` result never repeats an element. */
  lemma TopByDistinct<T>(cands: seq<T>, key: T -> real, tie: T -> int, n: nat)
    requires Distinct(cands) && TieInjective(cands, tie)
    ensures Distinct(TopBy(cands, key, tie, n))
  {
  }
}
