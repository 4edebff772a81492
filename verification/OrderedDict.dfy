/** Python dictionaries, which keep their keys in the order of first insertion. */
module OrderedDict {
  ghost predicate Distinct<T>(s: seq<T>) {
    forall i, j :: 0 <= i < j < |s| ==> s[i] != s[j]
  }

  function Elements<T(!new)>(s: seq<T>): set<T> {
    set x | x in s
  }

  lemma ElementsConcat<T(!new)>(s: seq<T>, t: seq<T>)
    ensures Elements(s + t) == Elements(s) + Elements(t)
  {
  }

  lemma DistinctConcat<T(!new)>(s: seq<T>, t: seq<T>)
    ensures Distinct(s + t) <==> Distinct(s) && Distinct(t) && Elements(s) !! Elements(t)
  {
    if Distinct(s + t) {
      forall i, j | 0 <= i < j < |s|
        ensures s[i] != s[j]
      {
        assert (s + t)[i] != (s + t)[j];
      }
      forall i, j | 0 <= i < j < |t|
        ensures t[i] != t[j]
      {
        assert (s + t)[|s| + i] != (s + t)[|s| + j];
      }
      forall i, j | 0 <= i < |s| && 0 <= j < |t|
        ensures s[i] != t[j]
      {
        assert (s + t)[i] != (s + t)[|s| + j];
      }
    }
    if Distinct(s) && Distinct(t) && Elements(s) !! Elements(t) {
      forall i, j | 0 <= i < j < |s + t|
        ensures (s + t)[i] != (s + t)[j]
      {
        if i < |s| <= j {
          assert s[i] in Elements(s) && t[j - |s|] in Elements(t);
        }
      }
    }
  }

  datatype RawDict<K(!new), V> = RawDict(keys: seq<K>, vals: map<K, V>)
  {
    ghost predicate Valid() {
      Distinct(keys) && Elements(keys) == vals.Keys
    }
  }

  type Dict<K(!new), V> = d: RawDict<K, V> | d.Valid() witness RawDict([], map[])

  /** The keys are the keys of the values. */
  lemma KeysHaveValues<K(!new), V>(d: Dict<K, V>)
    ensures forall k :: k in d.keys <==> k in d.vals
  {
    assert forall k :: k in d.keys <==> k in Elements(d.keys);
  }

  function Empty<K(!new), V>(): Dict<K, V> {
    RawDict([], map[])
  }

  function Put<K(==, !new), V>(d: Dict<K, V>, k: K, v: V): Dict<K, V> {
    RawDict(if k in d.vals then d.keys else d.keys + [k], d.vals[k := v])
  }

  lemma PutKeys<K(!new), V>(d: Dict<K, V>, k: K, v: V)
    ensures Put(d, k, v).keys == if k in d.keys then d.keys else d.keys + [k]
    ensures Put(d, k, v).vals == d.vals[k := v]
    ensures k in d.keys <==> k in d.vals
  {
    assert k in d.keys <==> k in Elements(d.keys);
  }

  lemma PutSame<K(!new), V>(d: Dict<K, V>, k: K)
    requires k in d.vals
    ensures Put(d, k, d.vals[k]) == d
  {
    assert d.vals[k := d.vals[k]] == d.vals;
  }

  /** The distinct elements of s in the order in which they first occur. */
  function FirstSeen<T(==, !new)>(s: seq<T>): seq<T> {
    if s == [] then []
    else
      var r := FirstSeen(s[..|s| - 1]);
      if s[|s| - 1] in s[..|s| - 1] then r else r + [s[|s| - 1]]
  }

  lemma {:induction false} FirstSeenElements<T(!new)>(s: seq<T>)
    ensures Elements(FirstSeen(s)) == Elements(s)
    ensures Distinct(FirstSeen(s))
  {
    if s != [] {
      var init, last := s[..|s| - 1], s[|s| - 1];
      FirstSeenElements(init);
      assert s == init + [last];
      ElementsConcat(init, [last]);
      ElementsConcat(FirstSeen(init), [last]);
      DistinctConcat(FirstSeen(init), [last]);
    }
  }

  lemma InFirstSeen<T(!new)>(s: seq<T>, x: T)
    ensures x in FirstSeen(s) <==> x in s
  {
    FirstSeenElements(s);
    assert x in FirstSeen(s) <==> x in Elements(FirstSeen(s));
    assert x in s <==> x in Elements(s);
  }

  lemma FirstSeenStep<T(!new)>(s: seq<T>, x: T)
    ensures FirstSeen(s + [x]) == if x in s then FirstSeen(s) else FirstSeen(s) + [x]
  {
    assert (s + [x])[..|s|] == s;
  }

  /** The elements of s that are not in the set. */
  function Without<T(==, !new)>(s: seq<T>, xs: set<T>): seq<T> {
    if s == [] then []
    else if s[|s| - 1] in xs then Without(s[..|s| - 1], xs)
    else Without(s[..|s| - 1], xs) + [s[|s| - 1]]
  }

  lemma WithoutStep<T(!new)>(s: seq<T>, x: T, xs: set<T>)
    ensures Without(s + [x], xs) == if x in xs then Without(s, xs) else Without(s, xs) + [x]
  {
    assert (s + [x])[..|s|] == s;
  }

  lemma Regroup<T>(a: seq<T>, b: seq<T>, x: T)
    ensures a + b + [x] == a + (b + [x])
  {
  }

  lemma {:induction false} WithoutConcat<T(!new)>(s: seq<T>, t: seq<T>, xs: set<T>)
    ensures Without(s + t, xs) == Without(s, xs) + Without(t, xs)
  {
    hide Without;
    NothingWithout(xs);
    if t == [] {
      assert s + t == s && Without(s, xs) + [] == Without(s, xs);
    } else {
      var init, last := t[..|t| - 1], t[|t| - 1];
      WithoutConcat(s, init, xs);
      assert s + t == (s + init) + [last] && t == init + [last];
      WithoutStep(s + init, last, xs);
      WithoutStep(init, last, xs);
      Regroup(Without(s, xs), Without(init, xs), last);
    }
  }

  lemma {:induction false} WithoutTwice<T(!new)>(s: seq<T>, xs: set<T>, ys: set<T>)
    ensures Without(Without(s, xs), ys) == Without(s, xs + ys)
  {
    if s != [] {
      var init, last := s[..|s| - 1], s[|s| - 1];
      WithoutTwice(init, xs, ys);
      if last !in xs {
        WithoutStep(Without(init, xs), last, ys);
        assert Without(s, xs) == Without(init, xs) + [last];
      }
    }
  }

  lemma {:induction false} WithoutElements<T(!new)>(s: seq<T>, xs: set<T>)
    ensures Elements(Without(s, xs)) == Elements(s) - xs
    ensures Distinct(s) ==> Distinct(Without(s, xs))
  {
    if s != [] {
      var init, last := s[..|s| - 1], s[|s| - 1];
      WithoutElements(init, xs);
      assert s == init + [last];
      ElementsConcat(init, [last]);
      DistinctConcat(init, [last]);
      if last !in xs {
        assert Without(s, xs) == Without(init, xs) + [last];
        ElementsConcat(Without(init, xs), [last]);
        DistinctConcat(Without(init, xs), [last]);
      }
    }
  }

  lemma {:induction false} WithoutAll<T(!new)>(s: seq<T>, xs: set<T>)
    requires forall x :: x in s ==> x in xs
    ensures Without(s, xs) == []
  {
    if s != [] {
      WithoutAll(s[..|s| - 1], xs);
    }
  }

  lemma {:induction false} WithoutNothing<T(!new)>(s: seq<T>)
    ensures Without(s, {}) == s
  {
    if s != [] {
      WithoutNothing(s[..|s| - 1]);
    }
  }

  /** First occurrences in a concatenation. */
  lemma {:induction false} FirstSeenConcat<T(!new)>(s: seq<T>, t: seq<T>)
    ensures FirstSeen(s + t) == FirstSeen(s) + Without(FirstSeen(t), Elements(s))
  {
    if t == [] {
      assert s + t == s;
    } else {
      var init, last := t[..|t| - 1], t[|t| - 1];
      FirstSeenConcat(s, init);
      assert t == init + [last];
      FirstSeenStep(init, last);
      FirstSeenNext(s, init, last);
      assert s + t == (s + init) + [last];
    }
  }

  lemma FirstSeenNext<T(!new)>(s: seq<T>, init: seq<T>, last: T)
    requires FirstSeen(s + init) == FirstSeen(s) + Without(FirstSeen(init), Elements(s))
    ensures FirstSeen((s + init) + [last]) == FirstSeen(s) + Without(FirstSeen(init + [last]), Elements(s))
  {
    FirstSeenStep(s + init, last);
    FirstSeenStep(init, last);
    if last !in init {
      WithoutStep(FirstSeen(init), last, Elements(s));
      if last !in s {
        assert last !in s + init;
      }
    }
  }

  /** The keys of b after those of a, without repetition. */
  lemma OverlaidKeys<K(!new), V, W>(a: Dict<K, V>, b: Dict<K, W>)
    ensures var keys := a.keys + Without(b.keys, a.vals.Keys);
            Distinct(keys) && Elements(keys) == a.vals.Keys + b.vals.Keys
  {
    var more := Without(b.keys, a.vals.Keys);
    WithoutElements(b.keys, a.vals.Keys);
    ElementsConcat(a.keys, more);
    DistinctConcat(a.keys, more);
  }

  /** Puts all of b's entries into a: dict.update. */
  function Overlay<K(==, !new), V>(a: Dict<K, V>, b: Dict<K, V>): Dict<K, V> {
    OverlaidKeys(a, b);
    RawDict(a.keys + Without(b.keys, a.vals.Keys), a.vals + b.vals)
  }

  lemma OverlayIsAssociative<K(!new), V>(a: Dict<K, V>, b: Dict<K, V>, c: Dict<K, V>)
    ensures Overlay(Overlay(a, b), c) == Overlay(a, Overlay(b, c))
  {
    OrderIsAssociative(a.keys, b.keys, c.keys, a.vals.Keys, b.vals.Keys);
    assert (a.vals + b.vals) + c.vals == a.vals + (b.vals + c.vals);
    assert (a.vals + b.vals).Keys == a.vals.Keys + b.vals.Keys;
  }

  /** The order of keys under repeated overlaying. */
  lemma OrderIsAssociative<K(!new)>(a: seq<K>, b: seq<K>, c: seq<K>, aset: set<K>, bset: set<K>)
    ensures a + Without(b, aset) + Without(c, aset + bset) == a + Without(b + Without(c, bset), aset)
  {
    WithoutConcat(b, Without(c, bset), aset);
    WithoutTwice(c, bset, aset);
    assert bset + aset == aset + bset;
  }

  lemma OverlayIsIdempotent<K(!new), V>(a: Dict<K, V>)
    ensures Overlay(a, a) == a
    ensures Overlay(a, Empty()) == a
    ensures Overlay(Empty(), a) == a
  {
    assert forall k :: k in a.keys ==> k in Elements(a.keys);
    WithoutAll(a.keys, a.vals.Keys);
    assert a.vals + a.vals == a.vals;
    var none := Empty<K, V>();
    assert a.vals + none.vals == a.vals;
    EmptyIsLeftIdentity(a, none);
  }

  lemma EmptyIsLeftIdentity<K(!new), V>(a: Dict<K, V>, none: Dict<K, V>)
    requires none == Empty()
    ensures Overlay(none, a) == a
  {
    WithoutNothing(a.keys);
    assert none.vals.Keys == {};
    assert none.vals + a.vals == a.vals;
    assert none.keys + a.keys == a.keys;
  }

  /** Putting an entry into b and then b into a is putting the entry last. */
  lemma OverlayStep<K(!new), V>(a: Dict<K, V>, b: Dict<K, V>, k: K, v: V)
    requires k !in b.vals
    ensures Overlay(a, Put(b, k, v)) == Put(Overlay(a, b), k, v)
  {
    OrderStep(a.keys, b.keys, a.vals.Keys, k);
    OverlayPut(a, b, Put(b, k, v), Put(Overlay(a, b), k, v), k, v);
  }

  lemma OverlayPut<K(!new), V>(a: Dict<K, V>, b: Dict<K, V>, b': Dict<K, V>, r: Dict<K, V>, k: K, v: V)
    requires b'.keys == b.keys + [k] && b'.vals == b.vals[k := v]
    requires r.vals == (a.vals + b.vals)[k := v]
    requires r.keys == if k in a.vals then a.keys + Without(b.keys, a.vals.Keys)
                       else a.keys + Without(b.keys, a.vals.Keys) + [k]
    ensures Overlay(a, b') == r
  {
    OrderStep(a.keys, b.keys, a.vals.Keys, k);
    MapStep(a.vals, b.vals, k, v);
  }

  lemma OrderStep<K(!new)>(a: seq<K>, b: seq<K>, aset: set<K>, k: K)
    ensures a + Without(b + [k], aset) ==
            if k in aset then a + Without(b, aset) else a + Without(b, aset) + [k]
  {
    WithoutStep(b, k, aset);
  }

  lemma MapStep<K, V>(a: map<K, V>, b: map<K, V>, k: K, v: V)
    ensures a + b[k := v] == (a + b)[k := v]
  {
  }

  // ----- Putting entries one after the other -----

  /** Puts b's entries for the given keys into a, in turn. */
  function PutAll<K(==, !new), V>(a: Dict<K, V>, keys: seq<K>, b: map<K, V>): Dict<K, V>
    requires forall k :: k in keys ==> k in b
    decreases keys
  {
    if keys == [] then a else PutAll(Put(a, keys[0], b[keys[0]]), keys[1..], b)
  }

  lemma {:induction false} PutAllKeys<K(!new), V>(a: Dict<K, V>, keys: seq<K>, b: map<K, V>)
    requires Distinct(keys) && forall k :: k in keys ==> k in b
    ensures PutAll(a, keys, b).keys == a.keys + Without(keys, a.vals.Keys)
    decreases keys
  {
    hide Without, Put, Elements;
    if keys == [] {
      NothingWithout(a.vals.Keys);
    } else {
      var k, rest := keys[0], keys[1..];
      var a' := Put(a, k, b[k]);
      PutKeys(a, k, b[k]);
      assert keys == [k] + rest;
      DistinctConcat([k], rest);
      PutAllKeys(a', rest, b);
      PutAllOrder(a.keys, a.vals.Keys, k, rest);
      assert a'.vals.Keys == a.vals.Keys + {k};
    }
  }

  lemma {:induction false} PutAllVals<K(!new), V>(a: Dict<K, V>, keys: seq<K>, b: map<K, V>)
    requires forall k :: k in keys ==> k in b
    ensures PutAll(a, keys, b).vals == a.vals + map k | k in keys :: b[k]
    decreases keys
  {
    hide Put;
    if keys == [] {
      assert a.vals + map[] == a.vals;
    } else {
      var k, rest := keys[0], keys[1..];
      PutKeys(a, k, b[k]);
      PutAllVals(Put(a, k, b[k]), rest, b);
      assert keys == [k] + rest;
      PutAllValues(a.vals, k, rest, b);
    }
  }

  lemma NothingWithout<T(!new)>(xs: set<T>)
    ensures Without([], xs) == []
  {
  }

  lemma PutAllOrder<K(!new)>(a: seq<K>, aset: set<K>, k: K, rest: seq<K>)
    requires Distinct([k] + rest)
    ensures (if k in aset then a else a + [k]) + Without(rest, aset + {k}) == a + Without([k] + rest, aset)
  {
    DistinctConcat([k], rest);
    assert k in Elements([k]);
    WithoutOther(rest, aset, k);
    WithoutConcat([k], rest, aset);
    WithoutStep([], k, aset);
    assert [] + [k] == [k];
  }

  lemma {:induction false} WithoutOther<T(!new)>(s: seq<T>, xs: set<T>, x: T)
    requires x !in Elements(s)
    ensures Without(s, xs + {x}) == Without(s, xs)
  {
    if s != [] {
      assert s == s[..|s| - 1] + [s[|s| - 1]];
      ElementsConcat(s[..|s| - 1], [s[|s| - 1]]);
      WithoutOther(s[..|s| - 1], xs, x);
    }
  }

  lemma PutAllValues<K(!new), V>(a: map<K, V>, k: K, rest: seq<K>, b: map<K, V>)
    requires k in b && forall x :: x in rest ==> x in b
    ensures a[k := b[k]] + (map x | x in rest :: b[x]) == a + map x | x in [k] + rest :: b[x]
  {
  }

  /** The entries of b, put into a in b's order: the loop "for k, v in b.items(): a[k] = v". */
  lemma PutAllIsOverlay<K(!new), V>(a: Dict<K, V>, b: Dict<K, V>)
    ensures forall k :: k in b.keys ==> k in b.vals
    ensures PutAll(a, b.keys, b.vals) == Overlay(a, b)
  {
    hide PutAll, Without, Distinct;
    assert forall k :: k in b.keys <==> k in Elements(b.keys);
    PutAllKeys(a, b.keys, b.vals);
    PutAllVals(a, b.keys, b.vals);
    assert (map k | k in b.keys :: b.vals[k]) == b.vals;
  }

  // ----- The first entries of a dictionary -----

  ghost function Prefix<K(!new), V>(d: Dict<K, V>, n: nat): Dict<K, V>
    requires n <= |d.keys|
  {
    assert Elements(d.keys[..n]) <= Elements(d.keys);
    var vals := map k | k in d.keys[..n] :: d.vals[k];
    assert vals.Keys == Elements(d.keys[..n]);
    RawDict(d.keys[..n], vals)
  }

  lemma PrefixEnds<K(!new), V>(d: Dict<K, V>)
    ensures Prefix(d, 0) == Empty()
    ensures Prefix(d, |d.keys|) == d
  {
    assert d.keys[..|d.keys|] == d.keys;
    assert forall k :: k in d.keys <==> k in Elements(d.keys);
    assert Prefix(d, |d.keys|).vals == d.vals;
    assert Prefix(d, 0).vals == map[];
  }

  lemma PrefixStep<K(!new), V>(d: Dict<K, V>, n: nat)
    requires n < |d.keys|
    ensures d.keys[n] in d.vals && d.keys[n] !in Prefix(d, n).vals
    ensures Prefix(d, n + 1) == Put(Prefix(d, n), d.keys[n], d.vals[d.keys[n]])
  {
    var k := d.keys[n];
    assert k in Elements(d.keys);
    assert d.keys[..n + 1] == d.keys[..n] + [k];
    assert Prefix(d, n + 1).vals == Prefix(d, n).vals[k := d.vals[k]];
  }
}
