/** Strings in Go's byte order, sorted, and the standard sort by its contract. */
module Sorting {

  /** a sorts before b. */
  predicate Less(a: string, b: string) {
    b != "" && (a == "" || a[0] < b[0] || (a[0] == b[0] && Less(a[1..], b[1..])))
  }

  lemma {:induction false} LessIsTotal(a: string, b: string)
    ensures a == b || Less(a, b) || Less(b, a)
    ensures !(Less(a, b) && Less(b, a)) && !Less(a, a)
  {
    if a != "" {
      if b != "" && a[0] == b[0] {
        LessIsTotal(a[1..], b[1..]);
        assert a == [a[0]] + a[1..] && b == [b[0]] + b[1..];
      }
      LessIrreflexive(a);
    }
  }

  lemma {:induction false} LessIrreflexive(a: string)
    ensures !Less(a, a)
  {
    if a != "" { LessIrreflexive(a[1..]); }
  }

  lemma {:induction false} LessIsTransitive(a: string, b: string, c: string)
    requires Less(a, b) && Less(b, c)
    ensures Less(a, c)
  {
    if a != "" && a[0] == b[0] && b[0] == c[0] { LessIsTransitive(a[1..], b[1..], c[1..]); }
  }

  predicate StrictlySorted(s: seq<string>) {
    forall i, j :: 0 <= i < j < |s| ==> Less(s[i], s[j])
  }

  /** A strictly sorted list is determined by what it holds. */
  lemma {:induction false} SortedIsUnique(s: seq<string>, t: seq<string>)
    requires StrictlySorted(s) && StrictlySorted(t) && (forall x :: x in s <==> x in t)
    ensures s == t
  {
    assert s != [] ==> s[0] in t;
    assert t != [] ==> t[0] in s;
    if s != [] && t != [] {
      SameHead(s, t);
      forall x ensures x in s[1..] <==> x in t[1..] {
        assert x in s <==> x == s[0] || x in s[1..];
        assert x in t <==> x == t[0] || x in t[1..];
      }
      SortedIsUnique(s[1..], t[1..]);
      assert s == [s[0]] + s[1..] && t == [t[0]] + t[1..];
    }
  }

  lemma SameHead(s: seq<string>, t: seq<string>)
    requires StrictlySorted(s) && StrictlySorted(t) && (forall x :: x in s <==> x in t) && s != [] && t != []
    ensures s[0] == t[0]
    ensures s[0] !in s[1..] && t[0] !in t[1..]
  {
    assert s[0] in t && t[0] in s;
    LessIsTotal(s[0], t[0]);
    LessIrreflexive(s[0]);
    LessIrreflexive(t[0]);
  }

  /** One string into its place, unless it is there. */
  method Insert(s: seq<string>, x: string) returns (r: seq<string>)
    requires StrictlySorted(s)
    ensures StrictlySorted(r)
    ensures forall y :: y in r <==> y in s || y == x
  {
    var i := 0;
    while i < |s| && Less(s[i], x)
      invariant 0 <= i <= |s|
      invariant forall k :: 0 <= k < i ==> Less(s[k], x)
    {
      i := i + 1;
    }
    if i < |s| && s[i] == x { return s; }
    r := s[..i] + [x] + s[i..];
    forall k | i <= k < |s| ensures Less(x, s[k]) {
      LessIsTotal(s[i], x);
      if k > i { LessIsTransitive(x, s[i], s[k]); }
    }
    assert s == s[..i] + s[i..];
  }

  /** slices.Sort of a list without repetitions. */
  method Sort(s: seq<string>) returns (r: seq<string>)
    ensures StrictlySorted(r) && forall y :: y in r <==> y in s
  {
    r := [];
    var i := 0;
    while i < |s|
      invariant 0 <= i <= |s|
      invariant StrictlySorted(r) && forall y :: y in r <==> y in s[..i]
    {
      r := Insert(r, s[i]);
      i := i + 1;
    }
    assert s[..i] == s;
  }

  /** The keys of a map, sorted. */
  method SortedKeys(keys: set<string>) returns (r: seq<string>)
    ensures StrictlySorted(r) && forall y :: y in r <==> y in keys
  {
    r := [];
    var rest := keys;
    while rest != {}
      invariant rest <= keys
      invariant StrictlySorted(r) && forall y :: y in r <==> y in keys - rest
      decreases rest
    {
      var k :| k in rest;
      r := Insert(r, k);
      rest := rest - {k};
    }
  }

  // ---- With repetitions ----------------------------------------------------------

  predicate Sorted(s: seq<string>) { forall i, j :: 0 <= i < j < |s| ==> !Less(s[j], s[i]) }

  lemma NotBefore(x: string, y: string, z: string)
    requires !Less(y, x) && !Less(z, y)
    ensures !Less(z, x)
  {
    LessIsTotal(x, y);
    LessIsTotal(y, z);
    LessIsTotal(x, z);
    if Less(z, x) && x != y && y != z {
      LessIsTransitive(x, y, z);
    }
  }

  /** A place for x: nothing before it is greater, nothing after it less. */
  method PlaceFor(s: seq<string>, x: string) returns (i: nat)
    requires Sorted(s)
    ensures i <= |s| && (forall k :: 0 <= k < i ==> !Less(x, s[k])) && (forall k :: i <= k < |s| ==> !Less(s[k], x))
  {
    i := 0;
    while i < |s| && !Less(x, s[i])
      invariant 0 <= i <= |s|
      invariant forall k :: 0 <= k < i ==> !Less(x, s[k])
    {
      i := i + 1;
    }
    forall k | i <= k < |s| ensures !Less(s[k], x) {
      LessIsTotal(x, s[i]);
      if k > i { NotBefore(x, s[i], s[k]); }
    }
  }

  lemma InsertedIsSorted(s: seq<string>, x: string, i: nat)
    requires Sorted(s) && i <= |s|
    requires (forall k :: 0 <= k < i ==> !Less(x, s[k])) && (forall k :: i <= k < |s| ==> !Less(s[k], x))
    ensures Sorted(s[..i] + [x] + s[i..]) && multiset(s[..i] + [x] + s[i..]) == multiset(s) + multiset{x}
  {
    var r := s[..i] + [x] + s[i..];
    forall j, k | 0 <= j < k < |r| ensures !Less(r[k], r[j]) {
      assert j < i ==> r[j] == s[j];
      assert k < i ==> r[k] == s[k];
      assert j > i ==> r[j] == s[j - 1];
      assert k > i ==> r[k] == s[k - 1];
    }
    assert s == s[..i] + s[i..];
  }

  /** sort.Strings: sorted, and the same strings as often. */
  method SortStrings(s: seq<string>) returns (r: seq<string>)
    ensures Sorted(r) && multiset(r) == multiset(s)
  {
    r := [];
    var i := 0;
    while i < |s|
      invariant 0 <= i <= |s|
      invariant Sorted(r) && multiset(r) == multiset(s[..i])
    {
      var k := PlaceFor(r, s[i]);
      InsertedIsSorted(r, s[i], k);
      r := r[..k] + [s[i]] + r[k..];
      assert s[..i + 1] == s[..i] + [s[i]];
      i := i + 1;
    }
    assert s[..i] == s;
  }

  /** A sorted list is determined by its multiset. */
  lemma {:induction false} SortedIsTheOnlyOne(s: seq<string>, t: seq<string>)
    requires Sorted(s) && Sorted(t) && multiset(s) == multiset(t)
    ensures s == t
  {
    assert |s| == |multiset(s)| && |t| == |multiset(t)|;
    if s != [] {
      SameFirst(s, t);
      SortedIsTheOnlyOne(s[1..], t[1..]);
      assert s == [s[0]] + s[1..] && t == [t[0]] + t[1..];
    }
  }

  lemma SameFirst(s: seq<string>, t: seq<string>)
    requires Sorted(s) && Sorted(t) && multiset(s) == multiset(t) && s != [] && t != []
    ensures s[0] == t[0] && multiset(s[1..]) == multiset(t[1..])
  {
    assert s[0] in multiset(t) && t[0] in multiset(s);
    FirstIsLeast(s, t[0]);
    FirstIsLeast(t, s[0]);
    LessIsTotal(s[0], t[0]);
    assert s == [s[0]] + s[1..] && t == [t[0]] + t[1..];
    assert multiset(s[1..]) == multiset(s) - multiset{s[0]} && multiset(t[1..]) == multiset(t) - multiset{t[0]};
  }

  lemma FirstIsLeast(s: seq<string>, x: string)
    requires Sorted(s) && x in s
    ensures !Less(x, s[0])
  {
    LessIrreflexive(x);
  }
}
