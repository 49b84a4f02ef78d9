/**
 * Go's `url.Values`: a map from a key to its list of values, filled in place
 * by `Set` and rendered by `Encode` as `key=value` pairs joined with '&',
 * keys in ascending order, each key's values in the order they were given,
 * keys and values escaped with `url.QueryEscape`. `ParseQuery` is the reader
 * that `url.ParseQuery` implements; it undoes `Encode`.
 */
module UrlValues {
  import opened Wrappers
  import opened Strings
  import opened UrlEscape

  /** The contents of a `url.Values`. */
  type Query = map<Bytes, seq<Bytes>>

  datatype Pair = Pair(key: Bytes, value: Bytes)

  /** The pairs of one key, one per value, in order. */
  function ValuePairs(k: Bytes, vs: seq<Bytes>): (r: seq<Pair>)
    ensures |r| == |vs|
  {
    if vs == [] then [] else ValuePairs(k, vs[..|vs| - 1]) + [Pair(k, vs[|vs| - 1])]
  }

  /** The values `v` holds for `k`, none if it lacks `k`. */
  function Lookup(v: Query, k: Bytes): seq<Bytes>
  {
    if k in v then v[k] else []
  }

  /** The pairs of `v`, key by key in the order `ks`. */
  function PairsOf(v: Query, ks: seq<Bytes>): seq<Pair>
  {
    if ks == [] then []
    else PairsOf(v, ks[..|ks| - 1]) + ValuePairs(ks[|ks| - 1], Lookup(v, ks[|ks| - 1]))
  }

  function EncodePair(p: Pair): Bytes
  {
    QueryEscape(p.key) + "=" + QueryEscape(p.value)
  }

  /** The pairs rendered in turn, a '&' before each but the first. */
  function EncodePairs(ps: seq<Pair>): (r: Bytes)
    ensures r == [] <==> ps == []
  {
    if ps == [] then []
    else
      var init := EncodePairs(ps[..|ps| - 1]);
      (if init == [] then [] else init + "&") + EncodePair(ps[|ps| - 1])
  }

  /** What `url.Values.Encode` returns for a map holding `v`. */
  function EncodeQuery(v: Query): Bytes
  {
    EncodePairs(PairsOf(v, SortedKeys(v.Keys)))
  }

  lemma ValuePairsSnoc(k: Bytes, vs: seq<Bytes>, j: nat)
    requires j < |vs|
    ensures ValuePairs(k, vs[..j + 1]) == ValuePairs(k, vs[..j]) + [Pair(k, vs[j])]
  {
    assert vs[..j + 1][..j] == vs[..j];
  }

  lemma PairsOfSnoc(v: Query, ks: seq<Bytes>, i: nat)
    requires i < |ks|
    ensures PairsOf(v, ks[..i + 1]) == PairsOf(v, ks[..i]) + ValuePairs(ks[i], Lookup(v, ks[i]))
  {
    assert ks[..i + 1][..i] == ks[..i];
  }

  lemma EncodePairsSnoc(ps: seq<Pair>, p: Pair)
    ensures EncodePairs(ps + [p]) ==
      (if EncodePairs(ps) == [] then [] else EncodePairs(ps) + "&") + EncodePair(p)
  {
    assert (ps + [p])[..|ps|] == ps;
  }

  /** One step of `Encode`'s inner loop: a '&' unless nothing is written yet, then `k=v`. */
  lemma WriteStep(done: seq<Pair>, k: Bytes, vs: seq<Bytes>, j: nat, s: Bytes, s': Bytes)
    requires j < |vs|
    requires s == EncodePairs(done + ValuePairs(k, vs[..j]))
    requires s' == s + (if |s| > 0 then "&" else []) + (QueryEscape(k) + "=" + QueryEscape(vs[j]))
    ensures s' == EncodePairs(done + ValuePairs(k, vs[..j + 1]))
  {
    ValuePairsSnoc(k, vs, j);
    var ps := done + ValuePairs(k, vs[..j]);
    assert done + ValuePairs(k, vs[..j + 1]) == ps + [Pair(k, vs[j])];
    EncodePairsSnoc(ps, Pair(k, vs[j]));
  }

  /**
   * The inner loop of `url.Values.Encode`: writes `k=v` for each value of
   * one key onto `s`, the rendering of the pairs `done` written so far.
   */
  method WritePairs(s0: Bytes, ghost done: seq<Pair>, k: Bytes, vs: seq<Bytes>) returns (s: Bytes)
    requires s0 == EncodePairs(done)
    ensures s == EncodePairs(done + ValuePairs(k, vs))
  {
    s := s0;
    var keyEscaped := QueryEscape(k);
    assert done + ValuePairs(k, vs[..0]) == done;
    var j := 0;
    while j < |vs|
      invariant 0 <= j <= |vs|
      invariant s == EncodePairs(done + ValuePairs(k, vs[..j]))
    {
      ghost var before := s;
      var sep: Bytes := if |s| > 0 then "&" else [];
      var pair: Bytes := keyEscaped + "=" + QueryEscape(vs[j]);
      s := s + sep + pair;
      WriteStep(done, k, vs, j, before, s);
      j := j + 1;
    }
    assert vs[..|vs|] == vs;
  }

  /** A `url.Values` value, filled in place. */
  class Values {
    var entries: Query

    /** `url.Values{}`: no keys. */
    constructor ()
      ensures entries == map[]
    {
      entries := map[];
    }

    /** `Set` replaces whatever `key` held with the single value `value`. */
    method Set(key: Bytes, value: Bytes)
      modifies this
      ensures entries == old(entries)[key := [value]]
    {
      entries := entries[key := [value]];
    }

    /** The keys of the map, gathered in no particular order and then sorted. */
    method SortKeys() returns (keys: seq<Bytes>)
      ensures keys == SortedKeys(entries.Keys)
    {
      keys := [];
      var rest := entries.Keys;
      while rest != {}
        invariant rest <= entries.Keys
        invariant StrictlySorted(keys)
        invariant forall k :: k in keys <==> k in entries && k !in rest
        decreases rest
      {
        var k :| k in rest;
        keys := Insert(keys, k);
        rest := rest - {k};
      }
      SortedUnique(keys, SortedKeys(entries.Keys));
    }

    /**
     * `Encode`: sorts the keys, then writes each key's pairs, a '&' before
     * every pair but the first.
     */
    method Encode() returns (s: Bytes)
      ensures s == EncodeQuery(entries)
    {
      var keys := SortKeys();
      s := [];
      var i := 0;
      while i < |keys|
        invariant 0 <= i <= |keys|
        invariant s == EncodePairs(PairsOf(entries, keys[..i]))
      {
        var k := keys[i];
        var vs := Lookup(entries, k);
        s := WritePairs(s, PairsOf(entries, keys[..i]), k, vs);
        PairsOfSnoc(entries, keys, i);
        i := i + 1;
      }
      assert keys[..|keys|] == keys;
    }
  }

  // ---------------------------------------------------------------------
  // Reading a query string back: `url.ParseQuery`.

  /** Splits `s` at the first `sep`: Go's `strings.Cut`. */
  function Cut(s: Bytes, sep: Octet): (r: (Bytes, Bytes))
    ensures sep !in s ==> r == (s, [])
    ensures sep in s ==> s == r.0 + [sep] + r.1 && sep !in r.0
    ensures |r.1| < |s| || r.1 == []
  {
    if s == [] then ([], [])
    else if s[0] == sep then ([], s[1..])
    else
      var (before, after) := Cut(s[1..], sep);
      assert s == [s[0]] + s[1..];
      ([s[0]] + before, after)
  }

  /** Appends `value` to the values of `key`, as `ParseQuery` does. */
  function Add(m: Query, key: Bytes, value: Bytes): Query
  {
    m[key := (if key in m then m[key] else []) + [value]]
  }

  /**
   * Reads one '&'-separated piece into `m`. An empty piece is skipped; a
   * piece holding ';', or a key or value that does not unescape, is an
   * error; the text before the first '=' is the key and the rest (possibly
   * empty) the value.
   */
  function ParsePiece(m: Query, piece: Bytes): Option<Query>
  {
    if ';' in piece then None
    else if piece == [] then Some(m)
    else
      var (k, v) := Cut(piece, '=');
      match (QueryUnescape(k), QueryUnescape(v))
      case (Some(key), Some(value)) => Some(Add(m, key, value))
      case _ => None
  }

  /** Reads the '&'-separated pieces of `query` into `m`, left to right. */
  function ParseInto(m: Query, query: Bytes): Option<Query>
    decreases |query|
  {
    if query == [] then Some(m)
    else
      var (piece, rest) := Cut(query, '&');
      match ParsePiece(m, piece)
      case None => None
      case Some(m') => ParseInto(m', rest)
  }

  /** `url.ParseQuery`, stopping at the first error. */
  function ParseQuery(query: Bytes): Option<Query>
  {
    ParseInto(map[], query)
  }

  /** The map that reading `ps` in order into `m` leaves. */
  function FoldPairs(m: Query, ps: seq<Pair>): Query
  {
    if ps == [] then m
    else Add(FoldPairs(m, ps[..|ps| - 1]), ps[|ps| - 1].key, ps[|ps| - 1].value)
  }

  /** Reading `x + "&" + y` is reading `x`, then reading `y`. */
  lemma {:induction false} ParseIntoJoin(m: Query, x: Bytes, y: Bytes)
    ensures ParseInto(m, x + "&" + y) ==
      match ParseInto(m, x)
      case None => None
      case Some(m') => ParseInto(m', y)
    decreases |x|
  {
    var s := x + "&" + y;
    if '&' in x {
      var (xp, xr) := Cut(x, '&');
      assert s == xp + ['&'] + (xr + "&" + y);
      CutFirst(s, xp, xr + "&" + y, '&');
      match ParsePiece(m, xp)
      case None =>
      case Some(m') => ParseIntoJoin(m', xr, y);
    } else {
      assert s == x + ['&'] + y;
      CutFirst(s, x, y, '&');
    }
  }

  /** Cutting at the first separator of `a + [sep] + b` when `a` holds none. */
  lemma {:induction false} CutFirst(s: Bytes, a: Bytes, b: Bytes, sep: Octet)
    requires s == a + [sep] + b && sep !in a
    ensures Cut(s, sep) == (a, b)
  {
    if a != [] {
      assert s[0] == a[0] != sep;
      assert s[1..] == a[1..] + [sep] + b;
      CutFirst(s[1..], a[1..], b, sep);
      assert a == [a[0]] + a[1..];
    } else {
      assert s[1..] == b;
    }
  }

  /** An escaped string holds none of the characters a reader splits on. */
  lemma EscapedHasNoSeparator(s: Bytes)
    ensures '&' !in QueryEscape(s) && ';' !in QueryEscape(s) && '=' !in QueryEscape(s)
  {
  }

  /** One rendered pair reads back as that pair. */
  lemma ParseIntoPair(m: Query, p: Pair)
    ensures ParseInto(m, EncodePair(p)) == Some(Add(m, p.key, p.value))
  {
    var ek, ev := QueryEscape(p.key), QueryEscape(p.value);
    var s := EncodePair(p);
    EscapedHasNoSeparator(p.key);
    EscapedHasNoSeparator(p.value);
    assert s == ek + ['='] + ev;
    assert '&' !in s && ';' !in s;
    CutFirst(s, ek, ev, '=');
    UnescapeEscape(p.key);
    UnescapeEscape(p.value);
    assert ParsePiece(m, s) == Some(Add(m, p.key, p.value));
    assert Cut(s, '&') == (s, []);
  }

  /** Reading the rendering of `ps` into `m` reads each pair in turn. */
  lemma {:induction false} ParseEncodePairs(m: Query, ps: seq<Pair>)
    ensures ParseInto(m, EncodePairs(ps)) == Some(FoldPairs(m, ps))
  {
    if ps != [] {
      var init, last := ps[..|ps| - 1], ps[|ps| - 1];
      assert ps == init + [last];
      ParseEncodePairs(m, init);
      ParseEncodeSnoc(m, init, last);
    }
  }

  /** Reading the rendering of one more pair, given that of those before it. */
  lemma ParseEncodeSnoc(m: Query, init: seq<Pair>, last: Pair)
    requires ParseInto(m, EncodePairs(init)) == Some(FoldPairs(m, init))
    ensures ParseInto(m, EncodePairs(init + [last])) == Some(FoldPairs(m, init + [last]))
  {
    var m1 := FoldPairs(m, init);
    var m2 := Add(m1, last.key, last.value);
    EncodePairsSnoc(init, last);
    FoldPairsSnoc(m, init, last);
    ParseIntoPair(m1, last);
    if init != [] {
      ParseJoinStep(m, EncodePairs(init), EncodePair(last), m1, m2);
    } else {
      assert m1 == m;
      assert EncodePairs(init + [last]) == EncodePair(last);
    }
  }

  lemma ParseJoinStep(m: Query, x: Bytes, y: Bytes, m1: Query, m2: Query)
    requires ParseInto(m, x) == Some(m1) && ParseInto(m1, y) == Some(m2)
    ensures ParseInto(m, x + "&" + y) == Some(m2)
  {
    ParseIntoJoin(m, x, y);
  }

  lemma {:induction false} FoldPairsAppend(m: Query, a: seq<Pair>, b: seq<Pair>)
    ensures FoldPairs(m, a + b) == FoldPairs(FoldPairs(m, a), b)
  {
    if b == [] {
      assert a + b == a;
    } else {
      assert (a + b)[..|a + b| - 1] == a + b[..|b| - 1];
      FoldPairsAppend(m, a, b[..|b| - 1]);
    }
  }

  lemma FoldPairsSnoc(m: Query, ps: seq<Pair>, p: Pair)
    ensures FoldPairs(m, ps + [p]) == Add(FoldPairs(m, ps), p.key, p.value)
  {
    assert (ps + [p])[..|ps|] == ps;
  }

  /** Adding to a key just set appends to what it was set to. */
  lemma AddAfterSet(m: Query, k: Bytes, a: seq<Bytes>, x: Bytes)
    ensures Add(m[k := a], k, x) == m[k := a + [x]]
  {
  }

  /** Reading the pairs of one more value reads that value last. */
  lemma FoldValuePairsSnoc(m: Query, k: Bytes, init: seq<Bytes>, last: Bytes)
    ensures FoldPairs(m, ValuePairs(k, init + [last])) == Add(FoldPairs(m, ValuePairs(k, init)), k, last)
  {
    assert (init + [last])[..|init|] == init;
    assert ValuePairs(k, init + [last]) == ValuePairs(k, init) + [Pair(k, last)];
    FoldPairsSnoc(m, ValuePairs(k, init), Pair(k, last));
  }

  /** Reading the pairs of one key appends its values to what it held. */
  lemma {:induction false} FoldValuePairs(m: Query, k: Bytes, vs: seq<Bytes>)
    requires vs != []
    ensures FoldPairs(m, ValuePairs(k, vs)) == m[k := (if k in m then m[k] else []) + vs]
  {
    var held := if k in m then m[k] else [];
    var init, last := vs[..|vs| - 1], vs[|vs| - 1];
    assert vs == init + [last];
    FoldValuePairsSnoc(m, k, init, last);
    if init != [] {
      FoldValuePairs(m, k, init);
      AddAfterSet(m, k, held + init, last);
      assert (held + init) + [last] == held + vs;
    }
  }

  /** Reading the pairs of the keys `ks` rebuilds `v` restricted to `ks`. */
  lemma RestrictSnoc(v: Query, ks: seq<Bytes>, last: Bytes)
    requires forall k :: k in ks ==> k in v
    requires last in v
    ensures (map k | k in ks :: v[k])[last := v[last]] == map k | k in ks + [last] :: v[k]
  {
    var a := (map k | k in ks :: v[k])[last := v[last]];
    var b := map k | k in ks + [last] :: v[k];
    forall k ensures k in a <==> k in b {
      assert k in ks + [last] <==> k in ks || k == last;
    }
    assert a.Keys == b.Keys;
  }

  lemma {:induction false} FoldPairsOf(v: Query, ks: seq<Bytes>)
    requires forall k :: k in ks ==> k in v && v[k] != []
    requires forall i, j :: 0 <= i < j < |ks| ==> ks[i] != ks[j]
    ensures FoldPairs(map[], PairsOf(v, ks)) == map k | k in ks :: v[k]
  {
    if ks != [] {
      var init, last := ks[..|ks| - 1], ks[|ks| - 1];
      assert ks == init + [last];
      var before := PairsOf(v, init);
      assert Lookup(v, last) == v[last];
      assert PairsOf(v, ks) == before + ValuePairs(last, v[last]);
      FoldPairsOf(v, init);
      var m := map k | k in init :: v[k];
      FoldPairsAppend(map[], before, ValuePairs(last, v[last]));
      FoldValuePairs(m, last, v[last]);
      assert forall i :: 0 <= i < |init| ==> init[i] != last;
      assert last !in m;
      assert [] + v[last] == v[last];
      assert FoldPairs(map[], PairsOf(v, ks)) == m[last := v[last]];
      RestrictSnoc(v, init, last);
    }
  }

  /** Restricting a map to all of its keys leaves it as it is. */
  lemma RestrictAll(v: Query, ks: seq<Bytes>)
    requires forall k :: k in ks <==> k in v
    ensures (map k | k in ks :: v[k]) == v
  {
    var w := map k | k in ks :: v[k];
    assert w.Keys == v.Keys;
  }

  /**
   * Decoding undoes encoding: `ParseQuery` of `Encode` gives back every key
   * with all of its values, provided no key holds an empty list (`Encode`
   * writes nothing for such a key).
   */
  lemma ParseQueryEncode(v: Query)
    requires forall k :: k in v ==> v[k] != []
    ensures ParseQuery(EncodeQuery(v)) == Some(v)
  {
    var ks := SortedKeys(v.Keys);
    SortedDistinct(ks);
    ParseEncodePairs(map[], PairsOf(v, ks));
    FoldPairsOf(v, ks);
    RestrictAll(v, ks);
  }
}
