/**
 * The order in which `Object.keys(data).sort()` lists country and state
 * names, and a method that produces that listing.
 */
module Ordering {

  /** JavaScript's default `sort()` order on strings: character by character,
      a proper prefix before any of its extensions. */
  predicate Before(a: string, b: string) {
    if a == [] then b != []
    else if b == [] then false
    else if a[0] != b[0] then a[0] < b[0]
    else Before(a[1..], b[1..])
  }

  lemma {:induction false} BeforeIrreflexive(a: string)
    ensures !Before(a, a)
  {
    if a != [] { BeforeIrreflexive(a[1..]); }
  }

  lemma {:induction false} BeforeAsymmetric(a: string, b: string)
    requires Before(a, b)
    ensures !Before(b, a)
  {
    if a != [] && b != [] && a[0] == b[0] { BeforeAsymmetric(a[1..], b[1..]); }
  }

  lemma {:induction false} BeforeTransitive(a: string, b: string, c: string)
    requires Before(a, b) && Before(b, c)
    ensures Before(a, c)
  {
    if a != [] && a[0] == b[0] && b[0] == c[0] {
      BeforeTransitive(a[1..], b[1..], c[1..]);
    }
  }

  lemma {:induction false} BeforeTotal(a: string, b: string)
    requires a != b
    ensures Before(a, b) || Before(b, a)
  {
    if a != [] && b != [] && a[0] == b[0] {
      assert a == [a[0]] + a[1..] && b == [b[0]] + b[1..];
      BeforeTotal(a[1..], b[1..]);
    }
  }

  /** Each name comes strictly before every later one: ascending, no repeats. */
  predicate StrictlySorted(s: seq<string>) {
    forall i, j | 0 <= i < j < |s| :: Before(s[i], s[j])
  }

  /** `r` lists exactly the names in `keys`, in ascending order. */
  ghost predicate IsSortedListing(r: seq<string>, keys: set<string>) {
    StrictlySorted(r) && (forall k :: k in r <==> k in keys)
  }

  /** `x` placed into the ascending list `r` at its position. */
  function Insert(r: seq<string>, x: string): (t: seq<string>)
    requires StrictlySorted(r) && x !in r
    ensures StrictlySorted(t)
    ensures forall k :: k in t <==> k in r || k == x
    ensures |t| == |r| + 1
  {
    if r == [] then [x]
    else if Before(x, r[0]) then
      assert forall j | 0 < j < |r| :: Before(x, r[j]) by {
        forall j | 0 < j < |r| ensures Before(x, r[j]) { BeforeTransitive(x, r[0], r[j]); }
      }
      [x] + r
    else
      BeforeTotal(x, r[0]);
      var t' := Insert(r[1..], x);
      assert forall k | k in t' :: Before(r[0], k);
      [r[0]] + t'
  }

  /** A non-empty set of names has a least one. */
  lemma {:induction false} HasLeast(keys: set<string>)
    requires keys != {}
    ensures exists m :: m in keys && forall k | k in keys && k != m :: Before(m, k)
    decreases |keys|
  {
    var x :| x in keys;
    var others := keys - {x};
    if others == {} {
      assert keys == {x};
    } else {
      HasLeast(others);
      var m :| m in others && forall k | k in others && k != m :: Before(m, k);
      BeforeTotal(x, m);
      if Before(x, m) {
        forall k | k in keys && k != x ensures Before(x, k) {
          if k != m { BeforeTransitive(x, m, k); }
        }
      } else {
        assert forall k | k in keys && k != m :: Before(m, k);
      }
    }
  }

  /** The ascending listing of a set of names, least name first. */
  ghost function Listing(keys: set<string>): (r: seq<string>)
    ensures IsSortedListing(r, keys)
    ensures |r| == |keys|
    decreases |keys|
  {
    if keys == {} then []
    else
      HasLeast(keys);
      var m :| m in keys && forall k | k in keys && k != m :: Before(m, k);
      var rest := Listing(keys - {m});
      assert forall j | 0 <= j < |rest| :: Before(m, rest[j]) by {
        forall j | 0 <= j < |rest| ensures Before(m, rest[j]) { assert rest[j] in keys - {m}; }
      }
      [m] + rest
  }

  /** `Object.keys(...).sort()`: the names of `keys` in ascending order, each once. */
  method SortedKeys(keys: set<string>) returns (r: seq<string>)
    ensures r == Listing(keys)
  {
    r := [];
    var rest := keys;
    while rest != {}
      invariant rest <= keys
      invariant StrictlySorted(r)
      invariant forall k :: k in r <==> k in keys && k !in rest
      decreases |rest|
    {
      var x :| x in rest;
      r := Insert(r, x);
      rest := rest - {x};
    }
    SortedListingUnique(r, Listing(keys), keys);
  }

  lemma ListingEmptyIff(r: seq<string>, keys: set<string>)
    requires IsSortedListing(r, keys)
    ensures r == [] <==> keys == {}
  {
    if r != [] { assert r[0] in keys; }
  }

  /** A set of names has only one ascending listing, so a method promising
      `IsSortedListing` determines its result completely. */
  lemma {:induction false} SortedListingUnique(r1: seq<string>, r2: seq<string>, keys: set<string>)
    requires IsSortedListing(r1, keys) && IsSortedListing(r2, keys)
    ensures r1 == r2
  {
    ListingEmptyIff(r1, keys);
    ListingEmptyIff(r2, keys);
    if r1 != [] && r2 != [] {
      var m1, m2 := r1[0], r2[0];
      if m1 != m2 {
        assert m2 in r1 && m1 in r2;
        assert Before(m1, m2) by {
          var j :| 0 <= j < |r1| && r1[j] == m2;
          assert j != 0;
        }
        assert Before(m2, m1) by {
          var j :| 0 <= j < |r2| && r2[j] == m1;
          assert j != 0;
        }
        BeforeAsymmetric(m1, m2);
      }
      var rest := keys - {m1};
      forall k ensures k in r1[1..] <==> k in rest {
        if k in r1[1..] {
          var j :| 1 <= j < |r1| && r1[j] == k;
          assert Before(m1, k);
          BeforeIrreflexive(m1);
        }
      }
      forall k ensures k in r2[1..] <==> k in rest {
        if k in r2[1..] {
          var j :| 1 <= j < |r2| && r2[j] == k;
          assert Before(m2, k);
          BeforeIrreflexive(m2);
        }
      }
      SortedListingUnique(r1[1..], r2[1..], rest);
      assert r1 == [m1] + r1[1..] && r2 == [m2] + r2[1..];
    }
  }
}
