/**
 Go's string order, `slices.Sort` and `dalec.SortMapKeys`, and what it means to
 range over a Go map: some duplicate-free list of its keys, in no particular order.

 Strings are sequences of characters. Go compares bytes, but the order of UTF-8
 byte strings is the order of their code points, so the two orders agree.
 */
module Order {

  /** Go's `a <= b` on strings. */
  predicate AtMost(a: string, b: string)
  {
    a == "" || (b != "" && (a[0] < b[0] || (a[0] == b[0] && AtMost(a[1..], b[1..]))))
  }

  /** Go's `a < b` on strings. */
  predicate Before(a: string, b: string)
  {
    AtMost(a, b) && a != b
  }

  lemma AtMostReflexive(a: string)
    ensures AtMost(a, a)
  {}

  lemma AtMostTotal(a: string, b: string)
    ensures AtMost(a, b) || AtMost(b, a)
  {}

  lemma AtMostAntisymmetric(a: string, b: string)
    requires AtMost(a, b) && AtMost(b, a)
    ensures a == b
  {
    if a != "" {
      AtMostAntisymmetric(a[1..], b[1..]);
      assert a == [a[0]] + a[1..] && b == [b[0]] + b[1..];
    }
  }

  lemma AtMostTransitive(a: string, b: string, c: string)
    requires AtMost(a, b) && AtMost(b, c)
    ensures AtMost(a, c)
  {}

  /** A prefix of a string sorts at or before it. */
  lemma {:induction false} PrefixAtMost(a: string, b: string)
    requires a <= b
    ensures AtMost(a, b)
  {
    if a != "" {
      assert a[1..] <= b[1..];
      PrefixAtMost(a[1..], b[1..]);
    }
  }

  /** The strings first differ at `i`, where `a` has the smaller character. */
  ghost predicate SmallerAt(a: string, b: string, i: nat)
  {
    i < |a| && i < |b| && a[..i] == b[..i] && a[i] < b[i]
  }

  /** The order is that of a dictionary: a string sorts at or before those it begins, and
      otherwise the first character in which two strings differ decides. */
  lemma {:induction false} FirstDifferenceDecides(a: string, b: string)
    ensures AtMost(a, b) <==> a <= b || exists i: nat :: SmallerAt(a, b, i)
  {
    if a != "" && b != "" {
      FirstDifferenceDecides(a[1..], b[1..]);
      assert a == [a[0]] + a[1..] && b == [b[0]] + b[1..];
      if AtMost(a, b) {
        if a[0] < b[0] {
          assert SmallerAt(a, b, 0);
        } else if !(a[1..] <= b[1..]) {
          var i: nat :| SmallerAt(a[1..], b[1..], i);
          DifferenceShifts(a, b, i);
        }
      }
      if exists i: nat :: SmallerAt(a, b, i) {
        var i: nat :| SmallerAt(a, b, i);
        if i > 0 {
          assert a[0] == a[..i][0] == b[..i][0] == b[0];
          DifferenceShifts(a, b, i - 1);
        }
      }
    }
  }

  lemma DifferenceShifts(a: string, b: string, i: nat)
    requires a != "" && b != "" && a[0] == b[0]
    ensures SmallerAt(a, b, i + 1) <==> SmallerAt(a[1..], b[1..], i)
  {
    if i + 1 < |a| && i + 1 < |b| {
      assert a[..i + 1] == [a[0]] + a[1..][..i] && b[..i + 1] == [b[0]] + b[1..][..i];
      assert a[1..][..i] == a[..i + 1][1..] && b[1..][..i] == b[..i + 1][1..];
    }
  }

  ghost predicate Sorted(s: seq<string>)
  {
    forall i, j :: 0 <= i < j < |s| ==> AtMost(s[i], s[j])
  }

  /** Sorted without duplicates. */
  ghost predicate Ascending(s: seq<string>)
  {
    forall i, j :: 0 <= i < j < |s| ==> Before(s[i], s[j])
  }

  ghost predicate NoDuplicates<T>(s: seq<T>)
  {
    forall i, j :: 0 <= i < j < |s| ==> s[i] != s[j]
  }

  /** A possible order in which `range` visits a map with these keys. */
  ghost predicate Enumerates<T>(order: seq<T>, keys: set<T>)
  {
    && NoDuplicates(order)
    && (forall k :: k in order ==> k in keys)
    && (forall k :: k in keys ==> k in order)
  }

  /** The key list `SortMapKeys` returns. */
  ghost predicate IsSortedKeys(s: seq<string>, keys: set<string>)
  {
    Ascending(s) && forall k :: k in s <==> k in keys
  }

  function Insert(x: string, s: seq<string>): seq<string>
  {
    if s == [] then [x]
    else if AtMost(x, s[0]) then [x] + s
    else [s[0]] + Insert(x, s[1..])
  }

  /** `slices.Sort`, as a function from the old contents to the new. */
  function Sort(s: seq<string>): (r: seq<string>)
    ensures Sorted(r)
    ensures multiset(r) == multiset(s)
  {
    if s == [] then [] else
      assert s == [s[0]] + s[1..];
      var rest := Sort(s[1..]);
      InsertSorts(s[0], rest);
      Insert(s[0], rest)
  }

  lemma {:induction false} InsertSorts(x: string, s: seq<string>)
    requires Sorted(s)
    ensures Sorted(Insert(x, s))
    ensures multiset(Insert(x, s)) == multiset{x} + multiset(s)
  {
    if s == [] {
    } else if AtMost(x, s[0]) {
      forall j | 0 <= j < |s| ensures AtMost(x, s[j]) {
        if j > 0 { AtMostTransitive(x, s[0], s[j]); }
      }
    } else {
      AtMostTotal(x, s[0]);
      assert s == [s[0]] + s[1..];
      InsertSorts(x, s[1..]);
      var r := Insert(x, s[1..]);
      forall j | 0 <= j < |r| ensures AtMost(s[0], r[j]) {
        assert r[j] in multiset(r);
        if r[j] != x {
          assert r[j] in s[1..];
        }
      }
    }
  }

  lemma SortedHead(s: seq<string>, t: seq<string>)
    requires Sorted(s) && s != [] && t != [] && multiset(s) == multiset(t)
    ensures AtMost(s[0], t[0])
  {
    assert t[0] in multiset(t);
    var i :| 0 <= i < |s| && s[i] == t[0];
    if i == 0 { AtMostReflexive(s[0]); }
  }

  lemma TailMultiset(s: seq<string>, t: seq<string>)
    requires s != [] && t != [] && s[0] == t[0] && multiset(s) == multiset(t)
    ensures multiset(s[1..]) == multiset(t[1..])
  {
    assert s == [s[0]] + s[1..] && t == [t[0]] + t[1..];
    assert multiset(s[1..]) == multiset(s) - multiset{s[0]};
    assert multiset(t[1..]) == multiset(t) - multiset{t[0]};
  }

  /** Sorting has one outcome, whatever order the elements arrived in. */
  lemma {:induction false} SortedUnique(s: seq<string>, t: seq<string>)
    requires Sorted(s) && Sorted(t) && multiset(s) == multiset(t)
    ensures s == t
  {
    assert |multiset(s)| == |s| && |multiset(t)| == |t|;
    if s != [] {
      SortedHead(s, t);
      SortedHead(t, s);
      AtMostAntisymmetric(s[0], t[0]);
      TailMultiset(s, t);
      SortedUnique(s[1..], t[1..]);
      assert s == [s[0]] + s[1..] && t == [t[0]] + t[1..];
    }
  }

  lemma {:induction false} EnumerationMultiset<T>(order: seq<T>, keys: set<T>)
    requires Enumerates(order, keys)
    ensures multiset(order) == multiset(keys)
    decreases |order|
  {
    if order == [] {
      assert keys == {};
    } else {
      var h, rest := order[0], order[1..];
      EnumeratesRest(order, keys);
      EnumerationMultiset(rest, keys - {h});
      assert order == [h] + rest;
      assert h in order;
      SetMultiset(keys, h);
    }
  }

  lemma SetMultiset<T>(keys: set<T>, h: T)
    requires h in keys
    ensures multiset(keys) == multiset{h} + multiset(keys - {h})
  {}

  lemma EnumeratesRest<T>(order: seq<T>, keys: set<T>)
    requires Enumerates(order, keys) && order != []
    ensures Enumerates(order[1..], keys - {order[0]})
  {
    forall k | k in order[1..] ensures k in keys && k != order[0] {
      var i :| 0 <= i < |order[1..]| && order[1..][i] == k;
      assert order[i + 1] == k;
    }
    forall k | k in keys && k != order[0] ensures k in order[1..] {
      var i :| 0 <= i < |order| && order[i] == k;
      assert order[1..][i - 1] == k;
    }
  }

  lemma NoDuplicatesFromSet<T>(s: seq<T>, keys: set<T>)
    requires multiset(s) == multiset(keys)
    ensures NoDuplicates(s)
  {
    forall i, j | 0 <= i < j < |s| ensures s[i] != s[j] {
      assert s == s[..j] + [s[j]] + s[j + 1..];
      assert s[i] in s[..j] by { assert s[..j][i] == s[i]; }
      assert multiset(s)[s[i]] <= 1;
      assert s[i] in multiset(s[..j]);
    }
  }

  /** Any two runs of `SortMapKeys` over the same keys return the same list. */
  lemma SortedKeysUnique(s: seq<string>, t: seq<string>, keys: set<string>)
    requires IsSortedKeys(s, keys) && IsSortedKeys(t, keys)
    ensures s == t
  {
    assert Enumerates(s, keys) && Enumerates(t, keys);
    EnumerationMultiset(s, keys);
    EnumerationMultiset(t, keys);
    SortedUnique(s, t);
  }

  /** Collecting the keys in any order and sorting them gives the sorted key list. */
  lemma SortEnumeration(order: seq<string>, keys: set<string>)
    requires Enumerates(order, keys)
    ensures IsSortedKeys(Sort(order), keys)
  {
    EnumerationMultiset(order, keys);
    var r := Sort(order);
    NoDuplicatesFromSet(r, keys);
    forall k ensures k in r <==> k in keys {
      assert k in r <==> k in multiset(r);
      assert k in keys <==> k in multiset(keys);
    }
  }

  /** `for k := range m`: any enumeration at all may come out. */
  method RangeKeys<T(==)>(keys: set<T>) returns (order: seq<T>)
    ensures Enumerates(order, keys)
  {
    order := [];
    var left := keys;
    while left != {}
      invariant left <= keys
      invariant NoDuplicates(order)
      invariant forall k :: k in order ==> k in keys && k !in left
      invariant forall k :: k in keys ==> k in order || k in left
    {
      var k :| k in left;
      left := left - {k};
      order := order + [k];
    }
  }

  /** `dalec.SortMapKeys`. */
  method SortMapKeys<V>(m: map<string, V>) returns (keys: seq<string>)
    ensures IsSortedKeys(keys, m.Keys)
  {
    var order := RangeKeys(m.Keys);
    SortEnumeration(order, m.Keys);
    keys := Sort(order);
  }

  ghost function SomeOrder<T>(keys: set<T>): (order: seq<T>)
    ensures Enumerates(order, keys)
  {
    if keys == {} then [] else
      var k :| k in keys;
      [k] + SomeOrder(keys - {k})
  }

  /** The sorted key list, as a value for specifications. */
  ghost function SortedKeys(keys: set<string>): (r: seq<string>)
    ensures IsSortedKeys(r, keys)
  {
    SortEnumeration(SomeOrder(keys), keys);
    Sort(SomeOrder(keys))
  }

  /** What `f` gives for the first `n` keys, one after another. */
  ghost function Gather<T>(keys: seq<string>, n: nat, f: string -> seq<T>): seq<T>
    requires n <= |keys|
  {
    if n == 0 then [] else Gather(keys, n - 1, f) + f(keys[n - 1])
  }

  lemma {:induction false} GatherHolds<T>(keys: seq<string>, n: nat, f: string -> seq<T>, x: T)
    requires n <= |keys|
    ensures x in Gather(keys, n, f) <==> exists i :: 0 <= i < n && x in f(keys[i])
  {
    if n > 0 { GatherHolds(keys, n - 1, f, x); }
  }

  lemma {:induction false} GatherSome<T>(keys: seq<string>, n: nat, f: string -> seq<T>)
    requires n <= |keys|
    ensures |Gather(keys, n, f)| > 0 <==> exists i :: 0 <= i < n && |f(keys[i])| > 0
  {
    if n > 0 { GatherSome(keys, n - 1, f); }
  }
}
