/**
 * Go strings are sequences of bytes. A byte is modelled as a character whose
 * code is below 256, so that string literals can be written directly.
 * This module holds Go's ordering on strings (byte-wise, a proper prefix
 * first) and the ascending arrangement of a set of strings that `sort.Strings`
 * produces.
 */
module Strings {

  type Octet = c: char | c as int < 0x100
  type Bytes = seq<Octet>

  /** Go's `a < b` on strings: lexicographic on bytes, a proper prefix first. */
  predicate Less(a: Bytes, b: Bytes)
  {
    if |a| == 0 then |b| > 0
    else if |b| == 0 then false
    else if a[0] != b[0] then a[0] < b[0]
    else Less(a[1..], b[1..])
  }

  lemma {:induction false} LessIrreflexive(a: Bytes)
    ensures !Less(a, a)
  {
    if |a| > 0 {
      LessIrreflexive(a[1..]);
    }
  }

  lemma {:induction false} LessTransitive(a: Bytes, b: Bytes, c: Bytes)
    requires Less(a, b) && Less(b, c)
    ensures Less(a, c)
  {
    if |a| > 0 && a[0] == b[0] && b[0] == c[0] {
      LessTransitive(a[1..], b[1..], c[1..]);
    }
  }

  /** Any two distinct strings are ordered one way or the other. */
  lemma {:induction false} LessTotal(a: Bytes, b: Bytes)
    requires a != b
    ensures Less(a, b) || Less(b, a)
  {
    if |a| > 0 && |b| > 0 && a[0] == b[0] {
      assert a == [a[0]] + a[1..] && b == [b[0]] + b[1..];
      LessTotal(a[1..], b[1..]);
    }
  }

  lemma {:induction false} LessAsymmetric(a: Bytes, b: Bytes)
    requires Less(a, b)
    ensures !Less(b, a)
  {
    if Less(b, a) {
      LessTransitive(a, b, a);
      LessIrreflexive(a);
    }
  }

  /** Strictly ascending, hence also free of duplicates. */
  predicate StrictlySorted(ks: seq<Bytes>)
  {
    forall i, j :: 0 <= i < j < |ks| ==> Less(ks[i], ks[j])
  }

  lemma SortedDistinct(ks: seq<Bytes>)
    requires StrictlySorted(ks)
    ensures forall i, j :: 0 <= i < j < |ks| ==> ks[i] != ks[j]
  {
    forall i, j | 0 <= i < j < |ks| ensures ks[i] != ks[j] {
      LessIrreflexive(ks[i]);
    }
  }

  /** `k` is the least element of `ks`. */
  predicate IsLeast(k: Bytes, ks: set<Bytes>)
  {
    k in ks && forall j :: j in ks && j != k ==> Less(k, j)
  }

  lemma {:induction false} LeastExists(ks: set<Bytes>)
    requires ks != {}
    ensures exists k :: IsLeast(k, ks)
    decreases |ks|
  {
    var x :| x in ks;
    if ks == {x} {
      assert IsLeast(x, ks);
    } else {
      LeastExists(ks - {x});
      var m :| IsLeast(m, ks - {x});
      if Less(m, x) {
        assert IsLeast(m, ks) by {
          forall j | j in ks && j != m ensures Less(m, j) {
            if j != x { assert j in ks - {x}; }
          }
        }
      } else {
        LessTotal(m, x);
        assert IsLeast(x, ks) by {
          forall j | j in ks && j != x ensures Less(x, j) {
            if j != m {
              assert j in ks - {x};
              LessTransitive(x, m, j);
            }
          }
        }
      }
    }
  }

  lemma LeastUnique(ks: set<Bytes>)
    ensures forall a, b :: IsLeast(a, ks) && IsLeast(b, ks) ==> a == b
  {
    forall a, b | IsLeast(a, ks) && IsLeast(b, ks) ensures a == b {
      if a != b {
        LessAsymmetric(a, b);
      }
    }
  }

  /**
   * The elements of a finite set of strings in ascending order: the order in
   * which `sort.Strings` leaves the keys of a map, whatever order they were
   * gathered in.
   */
  function SortedKeys(ks: set<Bytes>): (r: seq<Bytes>)
    ensures StrictlySorted(r)
    ensures |r| == |ks|
    ensures forall k :: k in r <==> k in ks
    decreases |ks|
  {
    if ks == {} then []
    else
      LeastExists(ks);
      LeastUnique(ks);
      var k :| IsLeast(k, ks);
      var rest := SortedKeys(ks - {k});
      assert forall i :: 0 <= i < |rest| ==> Less(k, rest[i]) by {
        forall i | 0 <= i < |rest| ensures Less(k, rest[i]) {
          assert rest[i] in ks - {k};
        }
      }
      [k] + rest
  }

  /** Any two strings are equal or ordered one way or the other. */
  lemma LessTrichotomy(a: Bytes, b: Bytes)
    ensures a == b || Less(a, b) || Less(b, a)
  {
    if a != b {
      LessTotal(a, b);
    }
  }

  /** Nothing in an ascending sequence comes before its head. */
  lemma HeadNotAbove(xs: seq<Bytes>, k: Bytes)
    requires StrictlySorted(xs) && k in xs
    ensures !Less(k, xs[0])
  {
    var i :| 0 <= i < |xs| && xs[i] == k;
    if i == 0 {
      LessIrreflexive(k);
    } else {
      LessAsymmetric(xs[0], k);
    }
  }

  /** Two ascending sequences holding the same strings are the same sequence. */
  lemma {:induction false} SortedUnique(xs: seq<Bytes>, ys: seq<Bytes>)
    requires StrictlySorted(xs) && StrictlySorted(ys)
    requires forall k :: k in xs <==> k in ys
    ensures xs == ys
  {
    assert xs != [] ==> xs[0] in ys;
    assert ys != [] ==> ys[0] in xs;
    if xs != [] && ys != [] {
      HeadNotAbove(ys, xs[0]);
      HeadNotAbove(xs, ys[0]);
      LessTrichotomy(xs[0], ys[0]);
      forall k ensures k in xs[1..] <==> k in ys[1..] {
        if k in xs[1..] {
          var i :| 1 <= i < |xs| && xs[i] == k;
          assert Less(xs[0], k);
          LessIrreflexive(k);
          assert k in ys;
        }
        if k in ys[1..] {
          var i :| 1 <= i < |ys| && ys[i] == k;
          assert Less(ys[0], k);
          LessIrreflexive(k);
          assert k in xs;
        }
      }
      SortedUnique(xs[1..], ys[1..]);
    }
  }

  /** Inserts `k` into its place in an ascending sequence that lacks it. */
  function Insert(ks: seq<Bytes>, k: Bytes): (r: seq<Bytes>)
    requires StrictlySorted(ks) && k !in ks
    ensures StrictlySorted(r)
    ensures |r| == |ks| + 1
    ensures forall x :: x in r <==> x in ks || x == k
  {
    if ks == [] then [k]
    else if Less(k, ks[0]) then
      assert forall i :: 0 <= i < |ks| ==> Less(k, ks[i]) by {
        forall i | 0 < i < |ks| ensures Less(k, ks[i]) {
          LessTransitive(k, ks[0], ks[i]);
        }
      }
      [k] + ks
    else
      LessTotal(k, ks[0]);
      var rest := Insert(ks[1..], k);
      assert forall i :: 0 <= i < |rest| ==> Less(ks[0], rest[i]) by {
        forall i | 0 <= i < |rest| ensures Less(ks[0], rest[i]) {
          if rest[i] != k {
            assert rest[i] in ks[1..];
          }
        }
      }
      [ks[0]] + rest
  }
}
