/**
 The exact lists of selectors and rules: what an event leaves under a parent is determined by the
 items of its batch, edited into the old list one after the other, and by the order of sorting.
 */
module NestedOrder {
  import opened Events
  import opened StableSort
  import opened ConfigMaps
  import opened NestedMaps

  /** What stays of a list before an item is added. */
  function Without(was: seq<Nested>, x: Nested, op: Op): seq<Nested> {
    if op == Append then was else Drop(was, x.id)
  }

  /** One edit with no sorting at all: the item, if it stays, goes to the end. */
  function Edit(was: seq<Nested>, x: Nested, op: Op): seq<Nested> {
    Without(was, x, op) + if op == Remove then [] else [x]
  }

  /** The edits of a batch that concern parent p. */
  function Edits(was: seq<Nested>, xs: seq<Nested>, op: Op, p: string): seq<Nested> {
    if xs == [] then was
    else
      var n := |xs| - 1;
      var e := Edits(was, xs[..n], op, p);
      if xs[n].parent == p then Edit(e, xs[n], op) else e
  }

  // ---------- Elements of equal order keep their order ----------

  lemma {:induction false} SelectConcat(a: seq<Nested>, b: seq<Nested>, k: int)
    ensures Select(a + b, SortKey, k) == Select(a, SortKey, k) + Select(b, SortKey, k)
  {
    if a == [] {
      assert a + b == b;
    } else {
      assert (a + b)[1..] == a[1..] + b;
      SelectConcat(a[1..], b, k);
    }
  }

  lemma {:induction false} DropConcat(a: seq<Nested>, b: seq<Nested>, id: string)
    ensures Drop(a + b, id) == Drop(a, id) + Drop(b, id)
  {
    if a == [] {
      assert a + b == b;
    } else {
      assert (a + b)[1..] == a[1..] + b;
      DropConcat(a[1..], b, id);
    }
  }

  lemma {:induction false} SelectDrop(s: seq<Nested>, id: string, k: int)
    ensures Select(Drop(s, id), SortKey, k) == Drop(Select(s, SortKey, k), id)
  {
    if s != [] {
      SelectDrop(s[1..], id, k);
      var head := if s[0].id == id then [] else [s[0]];
      var same := if SortKey(s[0]) == k then [s[0]] else [];
      SelectConcat(head, Drop(s[1..], id), k);
      DropConcat(same, Select(s[1..], SortKey, k), id);
      SelectOne(s[0], k);
      DropOne(s[0], id);
    }
  }

  lemma SelectOne(x: Nested, k: int)
    ensures Select([x], SortKey, k) == if SortKey(x) == k then [x] else []
  {
    assert [x][1..] == [];
  }

  lemma DropOne(x: Nested, id: string)
    ensures Drop([x], id) == if x.id == id then [] else [x]
  {
    assert [x][1..] == [];
  }

  /** Two lists that agree on the elements of each order. */
  ghost predicate Alike(a: seq<Nested>, b: seq<Nested>) {
    forall k :: Select(a, SortKey, k) == Select(b, SortKey, k)
  }

  lemma WithoutAlike(a: seq<Nested>, b: seq<Nested>, x: Nested, op: Op)
    requires Alike(a, b)
    ensures Alike(Without(a, x, op), Without(b, x, op))
  {
    forall k ensures Select(Without(a, x, op), SortKey, k) == Select(Without(b, x, op), SortKey, k) {
      SelectDrop(a, x.id, k);
      SelectDrop(b, x.id, k);
    }
  }

  lemma SnocAlike(a: seq<Nested>, b: seq<Nested>, tail: seq<Nested>)
    requires Alike(a, b)
    ensures Alike(a + tail, b + tail)
  {
    forall k ensures Select(a + tail, SortKey, k) == Select(b + tail, SortKey, k) {
      SelectConcat(a, tail, k);
      SelectConcat(b, tail, k);
    }
  }

  lemma SortAlike(s: seq<Nested>)
    ensures Alike(Sort(s, SortKey), s)
  {
    forall k ensures Select(Sort(s, SortKey), SortKey, k) == Select(s, SortKey, k) {
      SortIsStable(s, SortKey, k);
    }
  }

  lemma AlikeSorts(a: seq<Nested>, b: seq<Nested>)
    requires Alike(a, b)
    ensures Sort(a, SortKey) == Sort(b, SortKey)
  {
    SortFacts(a, SortKey);
    SortAlike(a);
    SortIsTheStableSort(b, Sort(a, SortKey), SortKey);
  }

  /** One item keeps the order of equal elements and goes behind its equals, whatever the operation. */
  lemma OneListStable(was: seq<Nested>, x: Nested, op: Op)
    ensures Alike(OneList(was, x, op), Edit(was, x, op))
  {
    var kept := Without(was, x, op);
    SortAlike(kept);
    SortAlike(kept + [x]);
    SnocAlike(Sort(kept, SortKey), kept, [x]);
    assert kept + [] == kept;
  }

  lemma EditAlike(a: seq<Nested>, b: seq<Nested>, x: Nested, op: Op)
    requires Alike(a, b)
    ensures Alike(Edit(a, x, op), Edit(b, x, op))
  {
    WithoutAlike(a, b, x, op);
    SnocAlike(Without(a, x, op), Without(b, x, op), if op == Remove then [] else [x]);
  }

  /** After a batch the children of each order stand as the plain edits leave them. */
  lemma {:induction false} FoldStable(m: Lists, xs: seq<Nested>, op: Op, p: string)
    ensures Alike(Children(Fold(m, xs, op), p), Edits(Children(m, p), xs, op, p))
  {
    if xs != [] {
      var n := |xs| - 1;
      var before, e := Fold(m, xs[..n], op), Edits(Children(m, p), xs[..n], op, p);
      FoldStable(m, xs[..n], op, p);
      if xs[n].parent == p {
        OneListStable(Children(before, p), xs[n], op);
        EditAlike(Children(before, p), e, xs[n], op);
      }
    }
  }

  // ---------- The exact list ----------

  /** A list that deletions, or puts of rules, touched last is the stable sort of the plain edits. */
  lemma SortedListIs(m: Lists, xs: seq<Nested>, op: Op, x: Nested)
    requires x in xs && (op == Remove || op == Put(Rule))
    ensures x.parent in Fold(m, xs, op)
    ensures Fold(m, xs, op)[x.parent] == Sort(Edits(Children(m, x.parent), xs, op, x.parent), SortKey)
  {
    var p := x.parent;
    TouchedSorted(m, xs, op, x);
    FoldStable(m, xs, op, p);
    SortIsTheStableSort(Edits(Children(m, p), xs, op, p), Fold(m, xs, op)[p], SortKey);
  }

  lemma {:induction false} EditsUntouched(was: seq<Nested>, xs: seq<Nested>, ys: seq<Nested>, op: Op, p: string)
    requires forall y :: y in ys ==> y.parent != p
    ensures Edits(was, xs + ys, op, p) == Edits(was, xs, op, p)
    decreases |ys|
  {
    if ys == [] {
      assert xs + ys == xs;
    } else {
      var n := |ys| - 1;
      assert ys[n] in ys && (xs + ys)[..|xs| + n] == xs + ys[..n];
      EditsUntouched(was, xs, ys[..n], op, p);
    }
  }

  lemma EditsAtLast(was: seq<Nested>, xs: seq<Nested>, op: Op, i: nat)
    requires LastOfParent(xs, i)
    ensures Edits(was, xs, op, xs[i].parent) == Edit(Edits(was, xs[..i], op, xs[i].parent), xs[i], op)
  {
    var ys := xs[..i] + [xs[i]];
    assert xs == ys + xs[i + 1..];
    EditsUntouched(was, ys, xs[i + 1..], op, xs[i].parent);
    assert ys[..i] == xs[..i];
  }

  /** A list that was appended to is the stable sort of the plain edits, except that the last item stays last. */
  lemma AppendedListIs(m: Lists, xs: seq<Nested>, op: Op, i: nat)
    requires LastOfParent(xs, i) && PutsLast(op)
    ensures var p := xs[i].parent;
            var e := Edits(Children(m, p), xs, op, p);
            && p in Fold(m, xs, op) && e != [] && e[|e| - 1] == xs[i]
            && Fold(m, xs, op)[p] == Sort(e[..|e| - 1], SortKey) + [xs[i]]
  {
    var p, x := xs[i].parent, xs[i];
    var was, e := Children(Fold(m, xs[..i], op), p), Edits(Children(m, p), xs[..i], op, p);
    FoldAtLast(m, xs, op, i);
    FoldStable(m, xs[..i], op, p);
    WithoutAlike(was, e, x, op);
    AlikeSorts(Without(was, x, op), Without(e, x, op));
    EditsAtLast(Children(m, p), xs, op, i);
    var all := Edits(Children(m, p), xs, op, p);
    assert all == Without(e, x, op) + [x];
    assert all[..|all| - 1] == Without(e, x, op);
  }

  /** A list that no item of the batch names is left alone, and a named one exists afterwards, be it empty. */
  lemma {:induction false} FoldNames(m: Lists, xs: seq<Nested>, op: Op, p: string)
    ensures p in Fold(m, xs, op) <==> p in m || exists i :: 0 <= i < |xs| && xs[i].parent == p
    ensures (forall i :: 0 <= i < |xs| ==> xs[i].parent != p) ==> SameAt(Fold(m, xs, op), m, p)
  {
    if xs != [] {
      var n := |xs| - 1;
      FoldNames(m, xs[..n], op, p);
      assert forall i :: 0 <= i < n ==> xs[..n][i] == xs[i];
    }
  }

  /**
   The published list of a parent that an event names: the stable sort of the plain edits of the old
   list, or of an empty one if the event replaces everything; selectors and replace-alls leave their
   last item last.
   */
  lemma PublishedList(m: Lists, c: Change<Nested>, kind: Kind, i: nat)
    requires LastOfParent(c.items, i)
    ensures var p, r := c.items[i].parent, EncodeNested(ApplyNested(kind)(m, c));
            var op := OpOf(c.event, kind);
            var e := Edits(if ReplacesAll(c.event) then [] else Children(m, p), c.items, op, p);
            p in r &&
            if PutsLast(op) then e != [] && r[p] == CleanList(Sort(e[..|e| - 1], SortKey) + [c.items[i]])
            else r[p] == CleanList(Sort(e, SortKey))
  {
    var base: Lists := if ReplacesAll(c.event) then map[] else m;
    var op := OpOf(c.event, kind);
    if PutsLast(op) {
      AppendedListIs(base, c.items, op, i);
    } else {
      SortedListIs(base, c.items, op, c.items[i]);
    }
  }
}
