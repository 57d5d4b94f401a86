/** Total orders and stable sorting, as Rust's `Ord` for `String` and
    `slice::sort_by` provide them to the rest of the engine. */
module Orders {

  function Min(a: nat, b: nat): nat {
    if a <= b then a else b
  }

  /** Lexicographic order on strings: how `String`, and hence a durable id or a
      qualified path, compares. */
  predicate Less(a: string, b: string) {
    b != [] && (a == [] || a[0] < b[0] || (a[0] == b[0] && Less(a[1..], b[1..])))
  }

  predicate AtMost(a: string, b: string) {
    a == b || Less(a, b)
  }

  /** At the first place where they differ the one has the smaller character, or it ends there. */
  lemma {:induction false} LessIff(a: string, b: string)
    ensures Less(a, b) <==> exists k: nat :: k < |b| && k <= |a| && a[..k] == b[..k] && (k == |a| || a[k] < b[k])
  {
    if a != [] && b != [] && a[0] == b[0] {
      LessIff(a[1..], b[1..]);
      if k: nat :| k < |b[1..]| && k <= |a[1..]| && a[1..][..k] == b[1..][..k] && (k == |a[1..]| || a[1..][k] < b[1..][k]) {
        assert a[..k + 1] == [a[0]] + a[1..][..k] && b[..k + 1] == [b[0]] + b[1..][..k];
        assert k + 1 < |b|;
      }
      if k: nat :| k < |b| && k <= |a| && a[..k] == b[..k] && (k == |a| || a[k] < b[k]) {
        assert k > 0;
        assert a[1..][..k - 1] == a[..k][1..] && b[1..][..k - 1] == b[..k][1..];
        assert k - 1 < |b[1..]| && a[1..][..k - 1] == b[1..][..k - 1];
      }
    } else if b != [] {
      assert a[..0] == b[..0];
      assert forall k: nat :: 0 < k <= |a| && k <= |b| && a[..k] == b[..k] ==> a[0] == a[..k][0] && b[0] == b[..k][0];
    }
  }

  lemma {:induction false} LessIrreflexive(a: string)
    ensures !Less(a, a)
  {
    if a != [] {
      LessIrreflexive(a[1..]);
    }
  }

  lemma {:induction false} LessTransitive(a: string, b: string, c: string)
    requires Less(a, b) && Less(b, c)
    ensures Less(a, c)
  {
    if a != [] && a[0] == b[0] == c[0] {
      LessTransitive(a[1..], b[1..], c[1..]);
    }
  }

  lemma {:induction false} LessTotal(a: string, b: string)
    ensures a == b || Less(a, b) || Less(b, a)
  {
    if a != [] && b != [] && a[0] == b[0] {
      LessTotal(a[1..], b[1..]);
      assert a == [a[0]] + a[1..] && b == [b[0]] + b[1..];
    }
  }

  lemma LessAsymmetric(a: string, b: string)
    requires Less(a, b)
    ensures !Less(b, a)
  {
    if Less(b, a) {
      LessTransitive(a, b, a);
      LessIrreflexive(a);
    }
  }

  lemma AtMostTransitive(a: string, b: string, c: string)
    requires AtMost(a, b) && AtMost(b, c)
    ensures AtMost(a, c)
  {
    if a != b && b != c {
      LessTransitive(a, b, c);
    }
  }

  lemma NotLessIsAtMost(a: string, b: string)
    ensures !Less(b, a) <==> AtMost(a, b)
  {
    LessTotal(a, b);
    LessIrreflexive(a);
    if Less(a, b) {
      LessAsymmetric(a, b);
    }
  }

  // ---- Stable insertion sort -------------------------------------------------

  /** Places `x` before the first element that does not come strictly before it,
      so that elements that compare equal keep their order. */
  function Place<T>(x: T, s: seq<T>, before: (T, T) -> bool): (r: seq<T>)
    ensures |r| == |s| + 1
  {
    if s == [] || !before(s[0], x) then [x] + s else [s[0]] + Place(x, s[1..], before)
  }

  function Sort<T>(s: seq<T>, before: (T, T) -> bool): (r: seq<T>)
    ensures |r| == |s|
  {
    if s == [] then [] else Place(s[0], Sort(s[1..], before), before)
  }

  lemma {:induction false} PlaceKeepsElements<T>(x: T, s: seq<T>, before: (T, T) -> bool)
    ensures multiset(Place(x, s, before)) == multiset(s) + multiset{x}
  {
    if s == [] || !before(s[0], x) {
    } else {
      PlaceKeepsElements(x, s[1..], before);
      assert s == [s[0]] + s[1..];
    }
  }

  lemma {:induction false} SortKeepsElements<T>(s: seq<T>, before: (T, T) -> bool)
    ensures multiset(Sort(s, before)) == multiset(s)
  {
    if s != [] {
      SortKeepsElements(s[1..], before);
      PlaceKeepsElements(s[0], Sort(s[1..], before), before);
      assert s == [s[0]] + s[1..];
    }
  }

  lemma SortKeepsMembership<T>(s: seq<T>, before: (T, T) -> bool)
    ensures forall x :: x in Sort(s, before) <==> x in s
  {
    SortKeepsElements(s, before);
    forall x
      ensures x in Sort(s, before) <==> x in s
    {
      assert x in Sort(s, before) <==> x in multiset(Sort(s, before));
      assert x in s <==> x in multiset(s);
    }
  }

  // ---- Strictly ascending sequences of strings -------------------------------

  ghost predicate Ascending(s: seq<string>) {
    forall i, j :: 0 <= i < j < |s| ==> Less(s[i], s[j])
  }

  ghost predicate Distinct<T>(s: seq<T>) {
    forall i, j :: 0 <= i < j < |s| ==> s[i] != s[j]
  }

  lemma {:induction false} PlaceKeepsAscending(x: string, s: seq<string>)
    requires Ascending(s) && x !in s
    ensures Ascending(Place(x, s, Less))
    ensures forall y :: y in Place(x, s, Less) <==> y == x || y in s
  {
    var r := Place(x, s, Less);
    if s != [] {
      if Less(s[0], x) {
        PlaceKeepsAscending(x, s[1..]);
        assert forall y :: y in s <==> y == s[0] || y in s[1..];
        assert forall k :: 0 < k < |r| ==> r[k] in Place(x, s[1..], Less);
        forall i, j | 0 <= i < j < |r|
          ensures Less(r[i], r[j])
        {
          if i == 0 {
            assert r[j] == x || r[j] in s[1..];
          }
        }
      } else {
        LessTotal(s[0], x);
        assert r == [x] + s;
        forall i, j | 0 <= i < j < |r|
          ensures Less(r[i], r[j])
        {
          if i == 0 && j > 1 {
            LessTransitive(x, s[0], s[j - 1]);
          }
        }
      }
    }
  }

  lemma {:induction false} SortAscends(s: seq<string>)
    requires Distinct(s)
    ensures Ascending(Sort(s, Less))
    ensures forall y :: y in Sort(s, Less) <==> y in s
  {
    if s != [] {
      SortAscends(s[1..]);
      assert s[0] !in s[1..];
      PlaceKeepsAscending(s[0], Sort(s[1..], Less));
    }
  }

  /** A strictly ascending sequence is determined by the set of its elements. */
  lemma {:induction false} AscendingIsCanonical(s: seq<string>, t: seq<string>)
    requires Ascending(s) && Ascending(t)
    requires forall x :: x in s <==> x in t
    ensures s == t
  {
    assert s != [] ==> s[0] in t;
    assert t != [] ==> t[0] in s;
    if s != [] && t != [] {
      assert s[0] in t && t[0] in s;
      if s[0] != t[0] {
        var i :| 0 <= i < |t| && t[i] == s[0];
        var j :| 0 <= j < |s| && s[j] == t[0];
        LessAsymmetric(t[0], s[0]);
      }
      forall x
        ensures x in s[1..] <==> x in t[1..]
      {
        LessIrreflexive(s[0]);
        assert s[0] !in s[1..] && t[0] !in t[1..];
        assert x in s <==> x == s[0] || x in s[1..];
        assert x in t <==> x == t[0] || x in t[1..];
      }
      AscendingIsCanonical(s[1..], t[1..]);
      assert s == [s[0]] + s[1..] && t == [t[0]] + t[1..];
    }
  }
}
