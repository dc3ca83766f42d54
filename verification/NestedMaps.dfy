/**
 Selectors and rules: maps from a parent to the list of its children. The lists must behave like
 a plain map from (parent, id) to data, and stay in `sort` order up to their last element.
 */
module NestedMaps {
  import opened Events
  import opened StableSort
  import opened ConfigMaps

  type Lists = map<string, seq<Nested>>
  type Flat = map<(string, string), Nested>

  function SortKey(x: Nested): int { x.sort }

  function Children(m: Lists, p: string): seq<Nested> {
    if p in m then m[p] else []
  }

  function Drop(s: seq<Nested>, id: string): seq<Nested> {
    if s == [] then []
    else (if s[0].id == id then [] else [s[0]]) + Drop(s[1..], id)
  }

  /** What a handler does with one item of the batch. */
  datatype Op = Remove | Append | Put(kind: Kind)

  /** The list of a parent after one item. */
  function OneList(was: seq<Nested>, x: Nested, op: Op): seq<Nested> {
    match op
    case Remove => Sort(Drop(was, x.id), SortKey)
    case Append => Sort(was, SortKey) + [x]
    case Put(Selector) => Sort(Drop(was, x.id), SortKey) + [x]
    case Put(Rule) => Sort(Drop(was, x.id) + [x], SortKey)
  }

  function One(m: Lists, x: Nested, op: Op): Lists {
    m[x.parent := OneList(Children(m, x.parent), x, op)]
  }

  function Fold(m: Lists, xs: seq<Nested>, op: Op): Lists {
    if xs == [] then m else One(Fold(m, xs[..|xs| - 1], op), xs[|xs| - 1], op)
  }

  function OpOf(e: Event, kind: Kind): Op {
    match e
    case Delete => Remove
    case Refresh | Myself => Append
    case Create | Update => Put(kind)
  }

  function ApplyNested(kind: Kind): (Lists, Change<Nested>) -> Lists {
    (m: Lists, c: Change<Nested>) => Fold(if ReplacesAll(c.event) then map[] else m, c.items, OpOf(c.event, kind))
  }

  // ---------- The plain map that the lists stand for ----------

  function FlatOne(f: Flat, x: Nested, op: Op): Flat {
    if op == Remove then f - {(x.parent, x.id)} else f[(x.parent, x.id) := x]
  }

  function FlatFold(f: Flat, xs: seq<Nested>, op: Op): Flat {
    if xs == [] then f else FlatOne(FlatFold(f, xs[..|xs| - 1], op), xs[|xs| - 1], op)
  }

  /** Put, remove or replace all; nothing about lists, order or kinds. */
  function FlatApply(f: Flat, c: Change<Nested>): Flat {
    FlatFold(if ReplacesAll(c.event) then map[] else f, c.items, OpOf(c.event, Selector))
  }

  /** The fold over a whole run, of items as they are read back. */
  function FlatRun(f: Flat, events: seq<Change<Nested>>): Flat
    decreases |events|
  {
    if events == [] then f
    else FlatRun(FlatApply(f, Change(CleanList(events[0].items), events[0].event)), events[1..])
  }

  /** How often `id` occurs in a list. */
  ghost function Count(s: seq<Nested>, id: string): nat {
    if s == [] then 0 else (if s[0].id == id then 1 else 0) + Count(s[1..], id)
  }

  /** All children sit under their own parent and no id occurs twice. */
  ghost predicate Tidy(s: seq<Nested>, p: string) {
    (forall x :: x in s ==> x.parent == p) && (forall id :: Count(s, id) <= 1)
  }

  ghost predicate Represents(m: Lists, f: Flat) {
    && (forall p :: p in m ==> Tidy(m[p], p))
    && (forall k :: k in f ==> k == (f[k].parent, f[k].id))
    && (forall x: Nested :: x in Children(m, x.parent) <==> Maps(f, x))
  }

  ghost predicate Maps(f: Flat, x: Nested) {
    (x.parent, x.id) in f && f[(x.parent, x.id)] == x
  }

  lemma {:induction false} CountConcat(a: seq<Nested>, b: seq<Nested>, id: string)
    ensures Count(a + b, id) == Count(a, id) + Count(b, id)
  {
    if a == [] {
      assert a + b == b;
    } else {
      assert (a + b)[1..] == a[1..] + b;
      CountConcat(a[1..], b, id);
    }
  }

  lemma {:induction false} CountInsert(x: Nested, s: seq<Nested>, id: string)
    ensures Count(Insert(x, s, SortKey), id) == Count([x] + s, id)
  {
    assert ([x] + s)[1..] == s;
    if !(s == [] || SortKey(x) <= SortKey(s[0])) {
      CountInsert(x, s[1..], id);
      assert ([x] + s[1..])[1..] == s[1..];
      var t := Insert(x, s[1..], SortKey);
      assert ([s[0]] + t)[1..] == t;
    }
  }

  lemma {:induction false} CountSort(s: seq<Nested>, id: string)
    ensures Count(Sort(s, SortKey), id) == Count(s, id)
  {
    if s != [] {
      var t := Sort(s[1..], SortKey);
      CountSort(s[1..], id);
      CountInsert(s[0], t, id);
      assert ([s[0]] + t)[1..] == t;
    }
  }

  lemma {:induction false} DropFacts(s: seq<Nested>, id: string)
    ensures forall x :: x in Drop(s, id) <==> x in s && x.id != id
  {
    if s != [] {
      DropFacts(s[1..], id);
      assert s == [s[0]] + s[1..];
    }
  }

  lemma {:induction false} CountDrop(s: seq<Nested>, id: string, j: string)
    ensures Count(Drop(s, id), j) == if j == id then 0 else Count(s, j)
  {
    if s != [] {
      CountDrop(s[1..], id, j);
      var t := Drop(s[1..], id);
      if s[0].id != id {
        assert ([s[0]] + t)[1..] == t;
      } else {
        assert [] + t == t;
      }
    }
  }

  lemma SortMembers(s: seq<Nested>, y: Nested)
    ensures y in Sort(s, SortKey) <==> y in s
  {
    SortFacts(s, SortKey);
  }

  /** The list that one item leaves behind, by its members. */
  lemma ListMembers(was: seq<Nested>, x: Nested, op: Op, y: Nested)
    ensures y in OneList(was, x, op) <==>
              (y in was && (op == Append || y.id != x.id)) || (op != Remove && y == x)
  {
    DropFacts(was, x.id);
    match op {
      case Remove => SortMembers(Drop(was, x.id), y);
      case Append => SortMembers(was, y);
      case Put(Selector) => SortMembers(Drop(was, x.id), y);
      case Put(Rule) => SortMembers(Drop(was, x.id) + [x], y);
    }
  }

  lemma OneMembers(m: Lists, x: Nested, op: Op, y: Nested)
    ensures y in One(m, x, op)[x.parent] <==>
              (y in Children(m, x.parent) && (op == Append || y.id != x.id)) || (op != Remove && y == x)
  {
    ListMembers(Children(m, x.parent), x, op, y);
  }

  /** The list that one item leaves behind, by how often it holds each id. */
  lemma OneCounts(m: Lists, x: Nested, op: Op, id: string)
    ensures Count(One(m, x, op)[x.parent], id) ==
              (if op != Append && id == x.id then 0 else Count(Children(m, x.parent), id))
              + (if op != Remove && id == x.id then 1 else 0)
  {
    var was := Children(m, x.parent);
    var kept := if op == Append then was else Drop(was, x.id);
    CountDrop(was, x.id, id);
    CountSort(kept, id);
    CountSort(kept + [x], id);
    CountConcat(Sort(kept, SortKey), [x], id);
    CountConcat(kept, [x], id);
  }

  lemma OneMaps(m: Lists, f: Flat, x: Nested, op: Op, y: Nested)
    requires Represents(m, f)
    requires op == Append ==> (x.parent, x.id) !in f
    ensures y in Children(One(m, x, op), y.parent) <==> Maps(FlatOne(f, x, op), y)
  {
    assert y in Children(m, y.parent) <==> Maps(f, y);
    if y.parent == x.parent {
      OneMembers(m, x, op, y);
    } else {
      OneElsewhere(m, x, op, y.parent);
    }
  }

  lemma OneRepresents(m: Lists, f: Flat, x: Nested, op: Op)
    requires Represents(m, f)
    requires op == Append ==> (x.parent, x.id) !in f
    ensures Represents(One(m, x, op), FlatOne(f, x, op))
  {
    var m', f' := One(m, x, op), FlatOne(f, x, op);
    var was := Children(m, x.parent);
    if op == Append && Count(was, x.id) > 0 {
      var y := CountWitness(was, x.id);
      assert false;
    }
    forall p | p in m' ensures Tidy(m'[p], p) {
      if p == x.parent {
        OneTidy(m, x, op);
      } else {
        OneElsewhere(m, x, op, p);
      }
    }
    forall y: Nested ensures y in Children(m', y.parent) <==> Maps(f', y) {
      OneMaps(m, f, x, op, y);
    }
  }

  lemma OneTidy(m: Lists, x: Nested, op: Op)
    requires Tidy(Children(m, x.parent), x.parent)
    requires op == Append ==> Count(Children(m, x.parent), x.id) == 0
    ensures Tidy(One(m, x, op)[x.parent], x.parent)
  {
    var s := One(m, x, op)[x.parent];
    forall y | y in s ensures y.parent == x.parent {
      OneMembers(m, x, op, y);
    }
    forall id ensures Count(s, id) <= 1 {
      OneCounts(m, x, op, id);
    }
  }

  lemma {:induction false} CountWitness(s: seq<Nested>, id: string) returns (y: Nested)
    requires Count(s, id) > 0
    ensures y in s && y.id == id
  {
    if s[0].id == id {
      y := s[0];
    } else {
      y := CountWitness(s[1..], id);
    }
  }

  ghost predicate DistinctItems(xs: seq<Nested>) {
    forall i, j :: 0 <= i < j < |xs| ==> (xs[i].parent, xs[i].id) != (xs[j].parent, xs[j].id)
  }

  lemma {:induction false} FlatFoldDomain(xs: seq<Nested>, k: (string, string))
    requires k in FlatFold(map[], xs, Append)
    ensures exists i :: 0 <= i < |xs| && k == (xs[i].parent, xs[i].id)
  {
    var n := |xs| - 1;
    if k != (xs[n].parent, xs[n].id) {
      FlatFoldDomain(xs[..n], k);
      var i :| 0 <= i < n && k == (xs[..n][i].parent, xs[..n][i].id);
      assert k == (xs[i].parent, xs[i].id);
    }
  }

  lemma {:induction false} FoldRepresents(m: Lists, f: Flat, xs: seq<Nested>, op: Op)
    requires Represents(m, f)
    requires op == Append ==> f == map[] && DistinctItems(xs)
    ensures Represents(Fold(m, xs, op), FlatFold(f, xs, op))
  {
    if xs != [] {
      var n := |xs| - 1;
      FoldRepresents(m, f, xs[..n], op);
      var k := (xs[n].parent, xs[n].id);
      if op == Append && k in FlatFold(f, xs[..n], op) {
        FlatFoldDomain(xs[..n], k);
      }
      OneRepresents(Fold(m, xs[..n], op), FlatFold(f, xs[..n], op), xs[n], op);
    }
  }

  // ---------- Publishing ----------

  function CleanFlat(f: Flat): Flat { map k | k in f :: CleanNested(f[k]) }

  lemma {:induction false} CountClean(s: seq<Nested>, id: string)
    ensures Count(CleanList(s), id) == Count(s, id)
  {
    if s != [] {
      assert CleanList(s)[1..] == CleanList(s[1..]);
      CountClean(s[1..], id);
    }
  }

  lemma CleanMembers(s: seq<Nested>, y: Nested)
    ensures y in CleanList(s) <==> exists x :: x in s && CleanNested(x) == y
  {
    if y in CleanList(s) {
      var i :| 0 <= i < |s| && CleanList(s)[i] == y;
      assert s[i] in s && CleanNested(s[i]) == y;
    }
    if exists x :: x in s && CleanNested(x) == y {
      var x :| x in s && CleanNested(x) == y;
      var i :| 0 <= i < |s| && s[i] == x;
      assert CleanList(s)[i] == y;
    }
  }

  lemma CleanTidy(s: seq<Nested>, p: string)
    requires Tidy(s, p)
    ensures Tidy(CleanList(s), p)
  {
    forall id ensures Count(CleanList(s), id) <= 1 {
      CountClean(s, id);
    }
    forall y | y in CleanList(s) ensures y.parent == p {
      CleanMembers(s, y);
    }
  }

  lemma EncodeRepresents(m: Lists, f: Flat)
    requires Represents(m, f)
    ensures Represents(EncodeNested(m), CleanFlat(f))
  {
    var m', f' := EncodeNested(m), CleanFlat(f);
    forall p | p in m' ensures Tidy(m'[p], p) {
      CleanTidy(m[p], p);
    }
    forall y: Nested ensures y in Children(m', y.parent) <==> Maps(f', y) {
      var s := Children(m, y.parent);
      assert Children(m', y.parent) == CleanList(s);
      CleanMembers(s, y);
      if y in CleanList(s) {
        var x :| x in s && CleanNested(x) == y;
        assert Maps(f, x);
      }
      if Maps(f', y) {
        var x := f[(y.parent, y.id)];
        assert Maps(f, x) && x in s && CleanNested(x) == y;
      }
    }
  }

  lemma {:induction false} CleanFlatFold(f: Flat, xs: seq<Nested>, op: Op)
    ensures CleanFlat(FlatFold(f, xs, op)) == FlatFold(CleanFlat(f), CleanList(xs), op)
  {
    if xs != [] {
      var n := |xs| - 1;
      CleanFlatFold(f, xs[..n], op);
      assert CleanList(xs)[..n] == CleanList(xs[..n]);
    }
  }

  ghost predicate DistinctRefreshes(events: seq<Change<Nested>>) {
    forall c :: c in events && ReplacesAll(c.event) ==> DistinctItems(c.items)
  }

  lemma {:induction false} FlatFoldKind(f: Flat, xs: seq<Nested>, k: Kind, l: Kind)
    ensures FlatFold(f, xs, Put(k)) == FlatFold(f, xs, Put(l))
  {
    if xs != [] {
      FlatFoldKind(f, xs[..|xs| - 1], k, l);
    }
  }

  lemma CleanFlatTwice(f: Flat)
    ensures CleanFlat(CleanFlat(f)) == CleanFlat(f)
  {
  }

  lemma FoldPublishes(m: Lists, f: Flat, xs: seq<Nested>, op: Op)
    requires Represents(m, f) && CleanFlat(f) == f
    requires op == Append ==> f == map[] && DistinctItems(xs)
    ensures var f' := FlatFold(f, CleanList(xs), op);
            Represents(EncodeNested(Fold(m, xs, op)), f') && CleanFlat(f') == f'
  {
    var g := FlatFold(f, xs, op);
    assert FlatFold(f, CleanList(xs), op) == CleanFlat(g) by {
      CleanFlatFold(f, xs, op);
    }
    assert Represents(EncodeNested(Fold(m, xs, op)), CleanFlat(g)) by {
      FoldRepresents(m, f, xs, op);
      EncodeRepresents(Fold(m, xs, op), g);
    }
    CleanFlatTwice(g);
  }

  lemma EventRepresents(m: Lists, f: Flat, c: Change<Nested>, kind: Kind)
    requires Represents(m, f) && CleanFlat(f) == f
    requires ReplacesAll(c.event) ==> DistinctItems(c.items)
    ensures var f' := FlatApply(f, Change(CleanList(c.items), c.event));
            Represents(EncodeNested(ApplyNested(kind)(m, c)), f') && CleanFlat(f') == f'
  {
    var base: Lists := if ReplacesAll(c.event) then map[] else m;
    var flat: Flat := if ReplacesAll(c.event) then map[] else f;
    var op, plain := OpOf(c.event, kind), OpOf(c.event, Selector);
    assert CleanFlat(flat) == flat;
    FoldPublishes(base, flat, c.items, op);
    assert FlatFold(flat, CleanList(c.items), op) == FlatFold(flat, CleanList(c.items), plain) by {
      FlatFoldKind(flat, CleanList(c.items), kind, Selector);
    }
  }

  /** After any events, the published lists are the plain fold of put, remove and replace-all. */
  lemma {:induction false} RunRepresents(m: Lists, f: Flat, events: seq<Change<Nested>>, kind: Kind)
    requires Represents(m, f) && CleanFlat(f) == f && DistinctRefreshes(events)
    ensures Represents(Publish(ApplyNested(kind), EncodeNested, m, events), FlatRun(f, events))
    decreases |events|
  {
    if events != [] {
      EventRepresents(m, f, events[0], kind);
      RunRepresents(EncodeNested(ApplyNested(kind)(m, events[0])),
                    FlatApply(f, Change(CleanList(events[0].items), events[0].event)), events[1..], kind);
    }
  }

  /** A selector store and a rule store fed the same events hold the same children. */
  lemma KindsAgree(events: seq<Change<Nested>>, x: Nested)
    requires DistinctRefreshes(events)
    ensures x in Children(Publish(ApplyNested(Selector), EncodeNested, map[], events), x.parent) <==>
            x in Children(Publish(ApplyNested(Rule), EncodeNested, map[], events), x.parent)
  {
    RunRepresents(map[], map[], events, Selector);
    RunRepresents(map[], map[], events, Rule);
  }

  // ---------- Repeated items in one replace-all ----------

  /** How many items of a batch address (parent, id). */
  ghost function Repeats(xs: seq<Nested>, p: string, id: string): nat {
    if xs == [] then 0
    else Repeats(xs[..|xs| - 1], p, id) + (if xs[|xs| - 1].parent == p && xs[|xs| - 1].id == id then 1 else 0)
  }

  lemma {:induction false} AppendCounts(xs: seq<Nested>, p: string, id: string)
    ensures Count(Children(Fold(map[], xs, Append), p), id) == Repeats(xs, p, id)
  {
    if xs != [] {
      var n := |xs| - 1;
      AppendCounts(xs[..n], p, id);
      if xs[n].parent == p {
        OneCounts(Fold(map[], xs[..n], Append), xs[n], Append, id);
      }
    }
  }

  lemma {:induction false} RepeatsAtLeast(xs: seq<Nested>, i: nat, j: nat)
    requires i <= j < |xs| && xs[i].parent == xs[j].parent && xs[i].id == xs[j].id
    ensures Repeats(xs, xs[i].parent, xs[i].id) >= if i < j then 2 else 1
  {
    var n := |xs| - 1;
    if j < n {
      RepeatsAtLeast(xs[..n], i, j);
    } else if i < n {
      RepeatsAtLeast(xs[..n], i, i);
    }
  }

  /** A replace-all stores each id once exactly when its batch addresses no child twice. */
  lemma RefreshTidy(m: Lists, c: Change<Nested>, kind: Kind)
    requires ReplacesAll(c.event)
    ensures (forall p, id :: Count(Children(ApplyNested(kind)(m, c), p), id) <= 1) <==> DistinctItems(c.items)
  {
    var r := ApplyNested(kind)(m, c);
    if DistinctItems(c.items) {
      FoldRepresents(map[], map[], c.items, Append);
    } else {
      var i, j :| 0 <= i < j < |c.items| &&
        (c.items[i].parent, c.items[i].id) == (c.items[j].parent, c.items[j].id);
      RepeatsAtLeast(c.items, i, j);
      AppendCounts(c.items, c.items[i].parent, c.items[i].id);
    }
  }

  // ---------- Order ----------

  /** Sorted, except that the last element may be out of place. */
  ghost predicate SortedButLast(s: seq<Nested>) {
    s == [] || Sorted(s[..|s| - 1], SortKey)
  }

  ghost predicate InOrder(m: Lists) {
    forall p :: p in m ==> SortedButLast(m[p])
  }

  lemma OneListInOrder(was: seq<Nested>, x: Nested, op: Op)
    ensures SortedButLast(OneList(was, x, op))
    ensures op == Remove || op == Put(Rule) ==> Sorted(OneList(was, x, op), SortKey)
  {
    var kept := if op == Append then was else Drop(was, x.id);
    SortFacts(kept, SortKey);
    SortFacts(kept + [x], SortKey);
    var t := Sort(kept, SortKey);
    assert (t + [x])[..|t|] == t;
  }

  lemma OneInOrder(m: Lists, x: Nested, op: Op)
    requires InOrder(m)
    ensures InOrder(One(m, x, op))
  {
    OneListInOrder(Children(m, x.parent), x, op);
  }

  lemma {:induction false} FoldInOrder(m: Lists, xs: seq<Nested>, op: Op)
    requires InOrder(m)
    ensures InOrder(Fold(m, xs, op))
  {
    if xs != [] {
      var n := |xs| - 1;
      FoldInOrder(m, xs[..n], op);
      OneInOrder(Fold(m, xs[..n], op), xs[n], op);
    }
  }

  lemma CleanKeepsOrder(s: seq<Nested>)
    ensures Sorted(s, SortKey) ==> Sorted(CleanList(s), SortKey)
    ensures SortedButLast(s) ==> SortedButLast(CleanList(s))
  {
    forall i | 0 <= i < |s| ensures CleanList(s)[i].sort == s[i].sort {
    }
    if s != [] && SortedButLast(s) {
      var t := s[..|s| - 1];
      forall i, j | 0 <= i < j < |t| ensures CleanList(s)[i].sort <= CleanList(s)[j].sort {
        assert SortKey(t[i]) <= SortKey(t[j]);
      }
    }
  }

  /** In every reachable store each list is in order up to its last element. */
  lemma {:induction false} RunInOrder(m: Lists, events: seq<Change<Nested>>, kind: Kind)
    requires InOrder(m)
    ensures InOrder(Publish(ApplyNested(kind), EncodeNested, m, events))
    decreases |events|
  {
    if events != [] {
      var c := events[0];
      var r := ApplyNested(kind)(m, c);
      FoldInOrder(if ReplacesAll(c.event) then map[] else m, c.items, OpOf(c.event, kind));
      forall p | p in r ensures SortedButLast(EncodeNested(r)[p]) {
        CleanKeepsOrder(r[p]);
      }
      RunInOrder(EncodeNested(r), events[1..], kind);
    }
  }

  lemma {:induction false} TouchedSorted(m: Lists, xs: seq<Nested>, op: Op, x: Nested)
    requires x in xs && (op == Remove || op == Put(Rule))
    ensures x.parent in Fold(m, xs, op) && Sorted(Fold(m, xs, op)[x.parent], SortKey)
  {
    var n := |xs| - 1;
    assert xs == xs[..n] + [xs[n]];
    if xs[n].parent == x.parent {
      OneListInOrder(Children(Fold(m, xs[..n], op), x.parent), xs[n], op);
    } else {
      TouchedSorted(m, xs[..n], op, x);
    }
  }

  /** A rule list that a create, update or delete touches is published fully sorted, whatever it was before. */
  lemma TouchedRulesSorted(m: Lists, c: Change<Nested>, x: Nested)
    requires x in c.items && !ReplacesAll(c.event)
    ensures var r := EncodeNested(ApplyNested(Rule)(m, c));
            x.parent in r && Sorted(r[x.parent], SortKey)
  {
    TouchedSorted(m, c.items, OpOf(c.event, Rule), x);
    CleanKeepsOrder(ApplyNested(Rule)(m, c)[x.parent]);
  }

  // ---------- When a list that was appended to is sorted ----------

  /** The operations that put the item last without sorting it in. */
  predicate PutsLast(op: Op) { op == Append || op == Put(Selector) }

  ghost predicate NoneAbove(s: seq<Nested>, bound: int) {
    forall y :: y in s ==> y.sort <= bound
  }

  lemma SortedSnoc(s: seq<Nested>, x: Nested)
    requires Sorted(s, SortKey)
    ensures Sorted(s + [x], SortKey) <==> NoneAbove(s, x.sort)
  {
    var t := s + [x];
    if Sorted(t, SortKey) {
      forall y | y in s ensures y.sort <= x.sort {
        var i :| 0 <= i < |s| && s[i] == y;
        assert SortKey(t[i]) <= SortKey(t[|s|]);
      }
    }
    if NoneAbove(s, x.sort) {
      forall i, j | 0 <= i < j < |t| ensures SortKey(t[i]) <= SortKey(t[j]) {
        if j == |s| {
          assert s[i] in s;
        } else {
          assert SortKey(s[i]) <= SortKey(s[j]);
        }
      }
    }
  }

  /** What stays of a list before the item is put last. */
  ghost predicate Kept(y: Nested, x: Nested, op: Op) { op == Append || y.id != x.id }

  /** A list is sorted after an append if and only if nothing that stays in it has a higher order. */
  lemma LastInPlace(was: seq<Nested>, x: Nested, op: Op)
    requires PutsLast(op)
    ensures Sorted(OneList(was, x, op), SortKey) <==>
            forall y :: y in was && Kept(y, x, op) ==> y.sort <= x.sort
  {
    var kept := if op == Append then was else Drop(was, x.id);
    DropFacts(was, x.id);
    SortFacts(kept, SortKey);
    SortedSnoc(Sort(kept, SortKey), x);
    assert forall y :: y in Sort(kept, SortKey) <==> y in was && Kept(y, x, op);
  }

  /** The exception for the last element is real: a selector put below any other child of its plugin goes last and out of order. */
  lemma SelectorOutOfPlace(was: seq<Nested>, x: Nested, y: Nested)
    requires y in was && y.id != x.id && x.sort < y.sort
    ensures var r := OneList(was, x, Put(Selector)); r[|r| - 1] == x && !Sorted(r, SortKey)
  {
    assert Kept(y, x, Put(Selector));
    LastInPlace(was, x, Put(Selector));
  }

  /** Item i is the last of the batch for its parent. */
  ghost predicate LastOfParent(xs: seq<Nested>, i: int) {
    0 <= i < |xs| && forall j :: i < j < |xs| ==> xs[j].parent != xs[i].parent
  }

  ghost predicate SameAt(m: Lists, n: Lists, p: string) {
    (p in m <==> p in n) && (p in m ==> m[p] == n[p])
  }

  lemma OneElsewhere(m: Lists, x: Nested, op: Op, p: string)
    requires x.parent != p
    ensures SameAt(One(m, x, op), m, p)
  {
  }

  lemma FoldSnoc(m: Lists, xs: seq<Nested>, x: Nested, op: Op)
    ensures Fold(m, xs + [x], op) == One(Fold(m, xs, op), x, op)
  {
    assert (xs + [x])[..|xs|] == xs;
  }

  /** Items for other parents leave a list alone. */
  lemma {:induction false} FoldUntouched(m: Lists, xs: seq<Nested>, ys: seq<Nested>, op: Op, p: string)
    requires forall y :: y in ys ==> y.parent != p
    ensures SameAt(Fold(m, xs + ys, op), Fold(m, xs, op), p)
    decreases |ys|
  {
    if ys == [] {
      assert xs + ys == xs;
    } else {
      var zs, y := ys[..|ys| - 1], ys[|ys| - 1];
      assert y in ys && xs + ys == xs + zs + [y];
      FoldUntouched(m, xs, zs, op, p);
      FoldSnoc(m, xs + zs, y, op);
      OneElsewhere(Fold(m, xs + zs, op), y, op, p);
    }
  }

  lemma FoldAtLast(m: Lists, xs: seq<Nested>, op: Op, i: nat)
    requires LastOfParent(xs, i)
    ensures SameAt(Fold(m, xs, op), One(Fold(m, xs[..i], op), xs[i], op), xs[i].parent)
  {
    assert xs == (xs[..i] + [xs[i]]) + xs[i + 1..];
    FoldUntouched(m, xs[..i] + [xs[i]], xs[i + 1..], op, xs[i].parent);
    FoldSnoc(m, xs[..i], xs[i], op);
  }

  /** Item j is in the list of its parent after the batch: nothing later replaces it. */
  ghost predicate Stands(xs: seq<Nested>, j: int, op: Op) {
    0 <= j < |xs| &&
    (op == Append || forall k :: j < k < |xs| ==> xs[k].parent != xs[j].parent || xs[k].id != xs[j].id)
  }

  /** Some item of the batch addresses (p, id). */
  ghost predicate Addresses(xs: seq<Nested>, p: string, id: string) {
    exists j :: 0 <= j < |xs| && xs[j].parent == p && xs[j].id == id
  }

  /** y is an item of the batch for p that stands. */
  ghost predicate StandsAs(xs: seq<Nested>, op: Op, p: string, y: Nested) {
    exists j :: Stands(xs, j, op) && xs[j].parent == p && xs[j] == y
  }

  /** The children a batch leaves under p: the old ones it does not address, and its own items that stand. */
  ghost predicate LeftBy(was: seq<Nested>, xs: seq<Nested>, op: Op, p: string, y: Nested) {
    || (y in was && (op == Append || !Addresses(xs, p, y.id)))
    || StandsAs(xs, op, p, y)
  }

  lemma AddressesSnoc(xs: seq<Nested>, x: Nested, p: string, id: string)
    ensures Addresses(xs + [x], p, id) <==> Addresses(xs, p, id) || (x.parent == p && x.id == id)
  {
    var ys := xs + [x];
    if Addresses(xs, p, id) {
      var j :| 0 <= j < |xs| && xs[j].parent == p && xs[j].id == id;
      assert ys[j] == xs[j];
    }
    assert ys[|xs|] == x;
  }

  lemma StandsLonger(xs: seq<Nested>, x: Nested, op: Op, j: nat)
    requires j < |xs|
    ensures Stands(xs + [x], j, op) <==>
            Stands(xs, j, op) && (op == Append || x.parent != xs[j].parent || x.id != xs[j].id)
  {
    var ys := xs + [x];
    assert ys[|xs|] == x && forall k :: 0 <= k < |xs| ==> ys[k] == xs[k];
  }

  lemma StandsSnoc(xs: seq<Nested>, x: Nested, op: Op, p: string, y: Nested)
    ensures StandsAs(xs + [x], op, p, y) <==>
            (x.parent == p && x == y) || (StandsAs(xs, op, p, y) && (op == Append || x.parent != p || x.id != y.id))
  {
    var ys := xs + [x];
    assert Stands(ys, |xs|, op) && ys[|xs|] == x;
    if StandsAs(ys, op, p, y) {
      var j :| Stands(ys, j, op) && ys[j].parent == p && ys[j] == y;
      if j < |xs| {
        StandsLonger(xs, x, op, j);
        assert xs[j] == y;
      }
    }
    if StandsAs(xs, op, p, y) {
      var j :| Stands(xs, j, op) && xs[j].parent == p && xs[j] == y;
      StandsLonger(xs, x, op, j);
      assert ys[j] == y;
    }
  }

  lemma {:induction false} FoldMembers(m: Lists, xs: seq<Nested>, op: Op, p: string, y: Nested)
    requires op != Remove
    ensures y in Children(Fold(m, xs, op), p) <==> LeftBy(Children(m, p), xs, op, p, y)
  {
    if xs != [] {
      var n := |xs| - 1;
      var ys, x := xs[..n], xs[n];
      assert xs == ys + [x];
      FoldMembers(m, ys, op, p, y);
      AddressesSnoc(ys, x, p, y.id);
      StandsSnoc(ys, x, op, p, y);
      if x.parent == p {
        OneMembers(Fold(m, ys, op), x, op, y);
      }
    }
  }

  lemma CleanSorted(s: seq<Nested>)
    ensures Sorted(CleanList(s), SortKey) <==> Sorted(s, SortKey)
  {
    var t := CleanList(s);
    assert forall i :: 0 <= i < |s| ==> SortKey(t[i]) == SortKey(s[i]);
  }

  /** The list after the last item for its parent is sorted if and only if that item is of highest order in it. */
  lemma FoldInPlace(m: Lists, xs: seq<Nested>, op: Op, i: nat)
    requires LastOfParent(xs, i) && PutsLast(op)
    ensures var p := xs[i].parent;
            p in Fold(m, xs, op) && (Sorted(Fold(m, xs, op)[p], SortKey) <==> NoneAbove(Fold(m, xs, op)[p], xs[i].sort))
  {
    var p, x, before := xs[i].parent, xs[i], Fold(m, xs[..i], op);
    var was := Children(before, p);
    FoldAtLast(m, xs, op, i);
    LastInPlace(was, x, op);
    var ls := OneList(was, x, op);
    forall y ensures y in ls <==> (y in was && Kept(y, x, op)) || y == x {
      OneMembers(before, x, op, y);
    }
  }

  /**
   A list that an event appends to is published in order if and only if the last item for its parent
   is of highest order among the old children the batch does not address and the items that stand.
   */
  lemma PublishedInPlace(m: Lists, c: Change<Nested>, kind: Kind, i: nat)
    requires LastOfParent(c.items, i) && PutsLast(OpOf(c.event, kind))
    ensures var p, r := c.items[i].parent, EncodeNested(ApplyNested(kind)(m, c));
            var was := if ReplacesAll(c.event) then [] else Children(m, p);
            p in r &&
            (Sorted(r[p], SortKey) <==>
             forall y :: LeftBy(was, c.items, OpOf(c.event, kind), p, y) ==> y.sort <= c.items[i].sort)
  {
    var base: Lists := if ReplacesAll(c.event) then map[] else m;
    var op, p := OpOf(c.event, kind), c.items[i].parent;
    FoldInPlace(base, c.items, op, i);
    var ls := Fold(base, c.items, op)[p];
    CleanSorted(ls);
    forall y ensures y in ls <==> LeftBy(Children(base, p), c.items, op, p, y) {
      FoldMembers(base, c.items, op, p, y);
    }
  }

  /** After a replace-all: if and only if no item of the batch for that parent is of higher order than the last one. */
  lemma RefreshInPlace(m: Lists, c: Change<Nested>, kind: Kind, i: nat)
    requires LastOfParent(c.items, i) && ReplacesAll(c.event)
    ensures var p, r := c.items[i].parent, EncodeNested(ApplyNested(kind)(m, c));
            p in r &&
            (Sorted(r[p], SortKey) <==>
             forall j :: 0 <= j < |c.items| && c.items[j].parent == p ==> c.items[j].sort <= c.items[i].sort)
  {
    PublishedInPlace(m, c, kind, i);
    var xs, p := c.items, c.items[i].parent;
    forall j | 0 <= j < |xs| && xs[j].parent == p ensures LeftBy([], xs, Append, p, xs[j]) {
      assert Stands(xs, j, Append);
    }
  }
}
