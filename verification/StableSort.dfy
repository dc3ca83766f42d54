/**
 The stable sort by an integer key that the listeners and the plugin configuration rely on.
 Sort is one executable form; SortIsTheStableSort says that stability and order determine it.
 */
module StableSort {

  function Insert<T>(x: T, s: seq<T>, key: T -> int): seq<T> {
    if s == [] || key(x) <= key(s[0]) then [x] + s
    else [s[0]] + Insert(x, s[1..], key)
  }

  function Sort<T>(s: seq<T>, key: T -> int): seq<T> {
    if s == [] then [] else Insert(s[0], Sort(s[1..], key), key)
  }

  ghost predicate Sorted<T>(s: seq<T>, key: T -> int) {
    forall i, j :: 0 <= i < j < |s| ==> key(s[i]) <= key(s[j])
  }

  /** The elements with key `k`, in their order in `s`. */
  ghost function Select<T>(s: seq<T>, key: T -> int, k: int): seq<T> {
    if s == [] then []
    else (if key(s[0]) == k then [s[0]] else []) + Select(s[1..], key, k)
  }

  lemma {:induction false} InsertBag<T>(x: T, s: seq<T>, key: T -> int)
    ensures multiset(Insert(x, s, key)) == multiset{x} + multiset(s)
    ensures forall y :: y in Insert(x, s, key) ==> y == x || y in s
  {
    if !(s == [] || key(x) <= key(s[0])) {
      InsertBag(x, s[1..], key);
      assert s == [s[0]] + s[1..];
    }
  }

  lemma {:induction false} InsertSorted<T>(x: T, s: seq<T>, key: T -> int)
    requires Sorted(s, key)
    ensures Sorted(Insert(x, s, key), key)
  {
    if !(s == [] || key(x) <= key(s[0])) {
      InsertSorted(x, s[1..], key);
      InsertBag(x, s[1..], key);
      var t := Insert(x, s[1..], key);
      forall i | 0 <= i < |t| ensures key(s[0]) <= key(t[i]) {
        assert t[i] in t;
        if t[i] in s[1..] {
          var j :| 0 <= j < |s[1..]| && s[1..][j] == t[i];
          assert s[j + 1] == t[i];
        }
      }
    }
  }

  lemma {:induction false} SortBag<T>(s: seq<T>, key: T -> int)
    ensures multiset(Sort(s, key)) == multiset(s)
  {
    if s != [] {
      SortBag(s[1..], key);
      InsertBag(s[0], Sort(s[1..], key), key);
      assert s == [s[0]] + s[1..];
    }
  }

  lemma {:induction false} SortSorted<T>(s: seq<T>, key: T -> int)
    ensures Sorted(Sort(s, key), key)
  {
    if s != [] {
      SortSorted(s[1..], key);
      InsertSorted(s[0], Sort(s[1..], key), key);
    }
  }

  lemma SameBag<T>(a: seq<T>, b: seq<T>)
    requires multiset(a) == multiset(b)
    ensures |a| == |b| && forall x :: x in a <==> x in b
  {
    assert |multiset(a)| == |multiset(b)|;
    assert forall x :: x in a <==> x in multiset(a);
  }

  lemma SortFacts<T>(s: seq<T>, key: T -> int)
    ensures Sorted(Sort(s, key), key)
    ensures multiset(Sort(s, key)) == multiset(s)
    ensures |Sort(s, key)| == |s|
    ensures forall x :: x in Sort(s, key) <==> x in s
  {
    SortSorted(s, key);
    SortBag(s, key);
    SameBag(Sort(s, key), s);
  }

  lemma {:induction false} InsertSelect<T>(x: T, s: seq<T>, key: T -> int, k: int)
    ensures Select(Insert(x, s, key), key, k) == Select([x] + s, key, k)
  {
    assert ([x] + s)[1..] == s;
    if !(s == [] || key(x) <= key(s[0])) {
      InsertSelect(x, s[1..], key, k);
      assert ([x] + s[1..])[1..] == s[1..];
      assert ([s[0]] + Insert(x, s[1..], key))[1..] == Insert(x, s[1..], key);
    }
  }

  lemma {:induction false} SortIsStable<T>(s: seq<T>, key: T -> int, k: int)
    ensures Select(Sort(s, key), key, k) == Select(s, key, k)
  {
    if s != [] {
      InsertSelect(s[0], Sort(s[1..], key), key, k);
      assert ([s[0]] + Sort(s[1..], key))[1..] == Sort(s[1..], key);
      SortIsStable(s[1..], key, k);
    }
  }

  lemma {:induction false} SelectHas<T>(s: seq<T>, key: T -> int, i: nat)
    requires i < |s|
    ensures Select(s, key, key(s[i])) != []
    ensures (forall j :: 0 <= j < i ==> key(s[j]) != key(s[i])) ==> Select(s, key, key(s[i]))[0] == s[i]
  {
    if i > 0 {
      SelectHas(s[1..], key, i - 1);
    }
  }

  lemma {:induction false} SelectWithin<T>(s: seq<T>, key: T -> int, k: int)
    ensures forall x :: x in Select(s, key, k) ==> x in s && key(x) == k
  {
    if s != [] {
      SelectWithin(s[1..], key, k);
    }
  }

  /** Any sorted sequence that keeps the order of equal keys is the one computed by Sort. */
  lemma {:induction false} SortedUnique<T>(a: seq<T>, b: seq<T>, key: T -> int)
    requires Sorted(a, key) && Sorted(b, key)
    requires forall k :: Select(a, key, k) == Select(b, key, k)
    ensures a == b
  {
    if a == [] {
      assert b == [];
    } else {
      SelectHas(a, key, 0);
      SelectWithin(b, key, key(a[0]));
      assert Select(b, key, key(a[0]))[0] in b;
      SelectHas(b, key, 0);
      SelectWithin(a, key, key(b[0]));
      assert Select(a, key, key(b[0]))[0] in a;
      assert a[0] == b[0];
      forall k ensures Select(a[1..], key, k) == Select(b[1..], key, k) {
        assert Select(a, key, k) == Select(b, key, k);
        if key(a[0]) == k {
          assert Select(a, key, k)[1..] == Select(a[1..], key, k);
          assert Select(b, key, k)[1..] == Select(b[1..], key, k);
        } else {
          assert Select(a, key, k) == Select(a[1..], key, k);
          assert Select(b, key, k) == Select(b[1..], key, k);
        }
      }
      SortedUnique(a[1..], b[1..], key);
      assert a == [a[0]] + a[1..] && b == [b[0]] + b[1..];
    }
  }

  lemma SortIsTheStableSort<T>(s: seq<T>, t: seq<T>, key: T -> int)
    requires Sorted(t, key) && forall k :: Select(t, key, k) == Select(s, key, k)
    ensures t == Sort(s, key)
  {
    SortFacts(s, key);
    forall k ensures Select(t, key, k) == Select(Sort(s, key), key, k) {
      SortIsStable(s, key, k);
    }
    SortedUnique(t, Sort(s, key), key);
  }
}
