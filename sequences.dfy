/**
 The two array operations the heatmap transformation is built from:
 spreading a `Set` built from an array back into an array (which keeps
 each distinct element once, in order of first appearance) and
 `Array.prototype.indexOf` (first position of an element, or -1).
 */
module Sequences {

  /** No element occurs twice. */
  predicate Distinct<T(==)>(s: seq<T>) {
    forall i, j :: 0 <= i < j < |s| ==> s[i] != s[j]
  }

  /** `s.indexOf(x)`: the position of the first occurrence of `x` in `s`,
      or -1 when `x` does not occur. */
  function IndexOf<T(==)>(s: seq<T>, x: T): (i: int)
    ensures -1 <= i < |s|
    ensures i >= 0 <==> x in s
    ensures i >= 0 ==> s[i] == x && forall j :: 0 <= j < i ==> s[j] != x
  {
    if |s| == 0 then -1
    else if s[0] == x then 0
    else
      var k := IndexOf(s[1..], x);
      if k < 0 then -1 else k + 1
  }

  /** `[...new Set(s)]`: a `Set` receives the elements of `s` one by one and
      keeps an element only when it is not already present; spreading it
      lists the kept elements in insertion order. */
  function Dedup<T(==,!new)>(s: seq<T>): (r: seq<T>)
    ensures Distinct(r)
    ensures forall x :: x in r <==> x in s
    ensures |r| <= |s|
  {
    if |s| == 0 then []
    else
      var p := Dedup(s[..|s| - 1]);
      var last := s[|s| - 1];
      assert s == s[..|s| - 1] + [last];
      if last in p then p else p + [last]
  }

  /** Adding one element at the end of the input adds it at the end of
      the deduplicated list, unless it is already there. */
  lemma DedupSnoc<T(!new)>(s: seq<T>, x: T)
    ensures Dedup(s + [x]) == if x in Dedup(s) then Dedup(s) else Dedup(s) + [x]
  {
    assert (s + [x])[..|s|] == s;
  }

  /** The elements of `t` are listed in the order in which they first
      appear in `s`. */
  predicate InFirstAppearanceOrder<T(==)>(s: seq<T>, t: seq<T>) {
    forall i, j :: 0 <= i < j < |t| ==> IndexOf(s, t[i]) < IndexOf(s, t[j])
  }

  /** Appending to a sequence does not move the first occurrence of an
      element already in it. */
  lemma {:induction false} IndexOfAppend<T>(p: seq<T>, q: seq<T>, x: T)
    requires x in p
    ensures IndexOf(p + q, x) == IndexOf(p, x)
  {
    if p[0] != x {
      assert (p + q)[1..] == p[1..] + q;
      IndexOfAppend(p[1..], q, x);
    }
  }

  /** The deduplicated list keeps the order of first appearance. */
  lemma {:induction false} DedupFirstAppearanceOrder<T(!new)>(s: seq<T>)
    ensures InFirstAppearanceOrder(s, Dedup(s))
  {
    if |s| > 0 {
      var init, last := s[..|s| - 1], s[|s| - 1];
      assert s == init + [last];
      var p := Dedup(init);
      DedupFirstAppearanceOrder(init);
      forall y | y in p
        ensures IndexOf(s, y) == IndexOf(init, y) < |init|
      {
        IndexOfAppend(init, [last], y);
      }
      if last !in p {
        assert IndexOf(s, last) == |init|;
        var r := p + [last];
        forall i, j | 0 <= i < j < |r|
          ensures IndexOf(s, r[i]) < IndexOf(s, r[j])
        {
          assert r[i] in p;
          if j < |p| {
            assert r[j] in p;
          }
        }
      } else {
        forall i, j | 0 <= i < j < |p|
          ensures IndexOf(s, p[i]) < IndexOf(s, p[j])
        {
          assert p[i] in p && p[j] in p;
        }
      }
    }
  }

  lemma EmptyIffNoElements<T>(s: seq<T>)
    ensures s == [] <==> forall x :: x !in s
  {
    if s != [] {
      assert s[0] in s;
    }
  }

  /** Two lists with the same elements, both in order of first appearance
      in `s`, are the same list. */
  lemma {:induction false} FirstAppearanceOrderUnique<T>(s: seq<T>, a: seq<T>, b: seq<T>)
    requires InFirstAppearanceOrder(s, a) && InFirstAppearanceOrder(s, b)
    requires forall x :: x in a <==> x in b
    ensures a == b
    decreases |a|
  {
    if a != [] && b != [] {
      assert a[0] in b && b[0] in a;
      var j :| 0 <= j < |b| && b[j] == a[0];
      var i :| 0 <= i < |a| && a[i] == b[0];
      assert i == 0 || j == 0;
      var a', b' := a[1..], b[1..];
      forall x
        ensures x in a' <==> x in b'
      {
        if x in a' {
          var i :| 1 <= i < |a| && a[i] == x;
          assert IndexOf(s, a[0]) < IndexOf(s, a[i]);
          assert x in b;
        }
        if x in b' {
          var j :| 1 <= j < |b| && b[j] == x;
          assert IndexOf(s, b[0]) < IndexOf(s, b[j]);
          assert x in a;
        }
      }
      assert InFirstAppearanceOrder(s, a') by {
        forall i, j | 0 <= i < j < |a'| ensures IndexOf(s, a'[i]) < IndexOf(s, a'[j]) {
          assert a'[i] == a[i + 1] && a'[j] == a[j + 1];
        }
      }
      assert InFirstAppearanceOrder(s, b') by {
        forall i, j | 0 <= i < j < |b'| ensures IndexOf(s, b'[i]) < IndexOf(s, b'[j]) {
          assert b'[i] == b[i + 1] && b'[j] == b[j + 1];
        }
      }
      FirstAppearanceOrderUnique(s, a', b');
    } else {
      EmptyIffNoElements(a);
      EmptyIffNoElements(b);
    }
  }

  /** Deduplication is characterised by what it promises: a list is
      `Dedup(s)` exactly when it holds the elements of `s` and lists them
      in order of first appearance (which also makes it duplicate-free). */
  lemma DedupCharacterisation<T(!new)>(s: seq<T>, t: seq<T>)
    ensures t == Dedup(s) <==> (forall x :: x in t <==> x in s) && InFirstAppearanceOrder(s, t)
  {
    DedupFirstAppearanceOrder(s);
    if (forall x :: x in t <==> x in s) && InFirstAppearanceOrder(s, t) {
      FirstAppearanceOrderUnique(s, t, Dedup(s));
    }
  }
}
