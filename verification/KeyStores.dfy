/**
 What the path-keyed stores mean: a plain map from keys to JSON, to which events are applied
 without any paths. Here selector ids must contain no '-', so that rule paths are unambiguous.
 */
module KeyStores {
  import opened Events
  import opened Options
  import opened Paths
  import opened PathStores

  type Records = map<Key, string>

  predicate Owned(k: Key, n: string) {
    (k.PluginKey? || k.SelectorKey? || k.RuleKey?) && k.plugin == n
  }

  function ApplyItem(m: Records, x: Item, e: Event): Records {
    if e != Delete then m[x.key := x.json]
    else if x.key.PluginKey? then map k | k in m && !Owned(k, x.key.plugin) :: m[k]
    else m - {x.key}
  }

  /** Empty plugin n in the family of g. */
  function Clear(m: Records, g: Key, n: string): Records {
    map k | k in m && !(SameFamily(k, g) && Owned(k, n)) :: m[k]
  }

  function ApplyPrologue(m: Records, c: Change<Item>): Records {
    if c.event == Refresh && c.items != [] && (c.items[0].key.SelectorKey? || c.items[0].key.RuleKey?)
    then Clear(m, c.items[0].key, c.items[0].key.plugin)
    else m
  }

  function ApplyItems(m: Records, xs: seq<Item>, e: Event): Records {
    if xs == [] then m else ApplyItem(ApplyItems(m, xs[..|xs| - 1], e), xs[|xs| - 1], e)
  }

  function ApplyChange(m: Records, c: Change<Item>): Records {
    ApplyItems(ApplyPrologue(m, c), c.items, c.event)
  }

  function ApplyRun(m: Records, cs: seq<Change<Item>>): Records {
    if cs == [] then m else ApplyChange(ApplyRun(m, cs[..|cs| - 1]), cs[|cs| - 1])
  }

  // ---------- The stores hold exactly the records ----------

  ghost predicate PlainKey(k: Key, names: set<string>) {
    ValidKey(k, names) && (k.RuleKey? ==> '-' !in k.selector)
  }

  ghost predicate Holds(e: Flat, m: Records, names: set<string>) {
    && (forall k :: k in m ==> PlainKey(k, names))
    && (forall k :: PlainKey(k, names) ==> (PathOf(k) in e <==> k in m))
    && (forall k :: k in m && PathOf(k) in e ==> e[PathOf(k)] == m[k])
    && (forall q :: q in e ==> Stands(q, names))
  }

  ghost predicate Stands(q: string, names: set<string>) {
    exists k :: PlainKey(k, names) && PathOf(k) == q
  }

  lemma PlainInjective(k: Key, l: Key, names: set<string>)
    requires NamesOk(names) && PlainKey(k, names) && PlainKey(l, names) && PathOf(k) == PathOf(l)
    ensures k == l
  {
    PathsInjective(k, l);
  }

  lemma WriteHolds(e: Flat, m: Records, k: Key, v: string, names: set<string>)
    requires NamesOk(names) && Holds(e, m, names) && PlainKey(k, names)
    ensures Holds(EtcdOp(e, Write(PathOf(k), v)), m[k := v], names)
  {
    forall l | PlainKey(l, names) && PathOf(l) == PathOf(k) ensures l == k {
      PlainInjective(l, k, names);
    }
  }

  lemma RemoveHolds(e: Flat, m: Records, k: Key, names: set<string>)
    requires NamesOk(names) && Holds(e, m, names) && PlainKey(k, names)
    ensures Holds(EtcdOp(e, Remove(PathOf(k))), m - {k}, names)
  {
    forall l | PlainKey(l, names) && PathOf(l) == PathOf(k) ensures l == k {
      PlainInjective(l, k, names);
    }
  }

  lemma ClearHolds(e: Flat, m: Records, p: string, g: Key, n: string, names: set<string>)
    requires NamesOk(names) && Holds(e, m, names) && n in names && PluginRoot(p, g, n)
    ensures Holds(EtcdOp(e, RemoveAll(p)), Clear(m, g, n), names)
  {
    forall l | PlainKey(l, names) ensures p <= PathOf(l) <==> SameFamily(l, g) && Owned(l, n) {
      OwnRecords(p, g, n, l, names);
    }
  }

  lemma {:induction false} EtcdConcat(e: Flat, a: seq<Op>, b: seq<Op>)
    ensures EtcdRun(e, a + b) == EtcdRun(EtcdRun(e, a), b)
  {
    if b == [] {
      assert a + b == a;
    } else {
      EtcdConcat(e, a, b[..|b| - 1]);
      assert (a + b)[..|a + b| - 1] == a + b[..|b| - 1];
    }
  }

  lemma EtcdOne(e: Flat, op: Op)
    ensures EtcdRun(e, [op]) == EtcdOp(e, op)
  {
    assert [op][..0] == [];
  }

  lemma EtcdThree(e: Flat, a: Op, b: Op, c: Op)
    ensures EtcdRun(e, [a, b, c]) == EtcdOp(EtcdOp(EtcdOp(e, a), b), c)
  {
    assert [a, b, c][..2] == [a, b] && [a, b][..1] == [a];
    EtcdOne(e, a);
  }

  lemma ClearThree(m: Records, x: Item)
    requires x.key.PluginKey?
    ensures var n := x.key.plugin;
            Clear(Clear(Clear(m, x.key, n), SelectorKey(n, ""), n), RuleKey(n, "", ""), n) == ApplyItem(m, x, Delete)
  {
  }

  lemma DeletePluginHolds(e: Flat, m: Records, x: Item, names: set<string>)
    requires NamesOk(names) && Holds(e, m, names) && PlainKey(x.key, names) && x.key.PluginKey?
    ensures Holds(EtcdRun(e, ItemOps(x, Delete)), ApplyItem(m, x, Delete), names)
  {
    var n := x.key.plugin;
    var p, q, r := PluginPath(n), SelectorParentPath(n), RuleParentPath(n);
    var s, u := SelectorKey(n, ""), RuleKey(n, "", "");
    var e1, m1 := EtcdOp(e, RemoveAll(p)), Clear(m, x.key, n);
    var e2, m2 := EtcdOp(e1, RemoveAll(q)), Clear(m1, s, n);
    var e3, m3 := EtcdOp(e2, RemoveAll(r)), Clear(m2, u, n);
    assert Holds(e1, m1, names) by { ClearHolds(e, m, p, x.key, n, names); }
    assert Holds(e2, m2, names) by { ClearHolds(e1, m1, q, s, n, names); }
    assert Holds(e3, m3, names) by { ClearHolds(e2, m2, r, u, n, names); }
    assert e3 == EtcdRun(e, ItemOps(x, Delete)) by { EtcdThree(e, RemoveAll(p), RemoveAll(q), RemoveAll(r)); }
    assert m3 == ApplyItem(m, x, Delete) by { ClearThree(m, x); }
  }

  lemma ItemHolds(e: Flat, m: Records, x: Item, ev: Event, names: set<string>)
    requires NamesOk(names) && Holds(e, m, names) && PlainKey(x.key, names)
    ensures Holds(EtcdRun(e, ItemOps(x, ev)), ApplyItem(m, x, ev), names)
  {
    var path := PathOf(x.key);
    if ev == Delete {
      if x.key.PluginKey? {
        DeletePluginHolds(e, m, x, names);
      } else {
        EtcdOne(e, Remove(path));
        RemoveHolds(e, m, x.key, names);
      }
    } else {
      WriteHolds(e, m, x.key, x.json, names);
      EtcdOne(e, Write(path, x.json));
      if x.key.SelectorKey? || x.key.RuleKey? {
        var parent := ItemOps(x, ev)[0];
        assert ItemOps(x, ev) == [parent] + [Write(path, x.json)];
        EtcdConcat(e, [parent], [Write(path, x.json)]);
        EtcdOne(e, parent);
      }
    }
  }

  lemma {:induction false} ItemsHold(e: Flat, m: Records, xs: seq<Item>, ev: Event, names: set<string>)
    requires NamesOk(names) && Holds(e, m, names) && forall x :: x in xs ==> PlainKey(x.key, names)
    ensures Holds(EtcdRun(e, ItemsOps(xs, ev)), ApplyItems(m, xs, ev), names)
  {
    if xs != [] {
      var ys, x := xs[..|xs| - 1], xs[|xs| - 1];
      ItemsHold(e, m, ys, ev, names);
      EtcdConcat(e, ItemsOps(ys, ev), ItemOps(x, ev));
      ItemHolds(EtcdRun(e, ItemsOps(ys, ev)), ApplyItems(m, ys, ev), x, ev, names);
    }
  }

  lemma ChangeHolds(e: Flat, m: Records, c: Change<Item>, names: set<string>)
    requires NamesOk(names) && Holds(e, m, names) && forall x :: x in c.items ==> PlainKey(x.key, names)
    ensures Holds(EtcdRun(e, OpsOf(c)), ApplyChange(m, c), names)
  {
    var e1, m1 := EtcdRun(e, Prologue(c)), ApplyPrologue(m, c);
    if Prologue(c) != [] {
      var k := c.items[0].key;
      assert c.items[0] in c.items && PlainKey(k, names);
      var p := Prologue(c)[0].path;
      EtcdOne(e, RemoveAll(p));
      ClearHolds(e, m, p, k, k.plugin, names);
    }
    assert Holds(e1, m1, names);
    EtcdConcat(e, Prologue(c), ItemsOps(c.items, c.event));
    ItemsHold(e1, m1, c.items, c.event, names);
  }

  /** After any events both stores hold exactly the records of the plain map. */
  lemma {:induction false} RunHolds(cs: seq<Change<Item>>, names: set<string>)
    requires NamesOk(names)
    requires forall c, x :: c in cs && x in c.items ==> PlainKey(x.key, names)
    ensures Holds(EtcdRun(map[], RunOps(cs)), ApplyRun(map[], cs), names)
    ensures ZkRun(map[], RunOps(cs)).Some?
    ensures Holds(Data(ZkRun(map[], RunOps(cs)).value), ApplyRun(map[], cs), names)
  {
    StoresAgree(cs, names);
    if cs != [] {
      var ds, c := cs[..|cs| - 1], cs[|cs| - 1];
      assert c in cs && forall d :: d in ds ==> d in cs;
      RunHolds(ds, names);
      EtcdConcat(map[], RunOps(ds), OpsOf(c));
      ChangeHolds(EtcdRun(map[], RunOps(ds)), ApplyRun(map[], ds), c, names);
    }
  }

  // ---------- Record by record ----------

  /** Deleting item x takes the record of k with it: its own, and for a plugin all that it owns. */
  predicate Ends(x: Item, k: Key) { x.key == k || (x.key.PluginKey? && Owned(k, x.key.plugin)) }

  ghost predicate Ended(xs: seq<Item>, k: Key) { exists i :: 0 <= i < |xs| && Ends(xs[i], k) }

  ghost predicate Written(xs: seq<Item>, k: Key) { exists i :: 0 <= i < |xs| && xs[i].key == k }

  /** Item i is the last of the batch for k. */
  ghost predicate LastItem(xs: seq<Item>, i: int, k: Key) {
    0 <= i < |xs| && xs[i].key == k && forall j :: i < j < |xs| ==> xs[j].key != k
  }

  /** The refresh empties the plugin and family of k before it writes. */
  predicate Empties(c: Change<Item>, k: Key) {
    && c.event == Refresh && c.items != []
    && var g := c.items[0].key; (g.SelectorKey? || g.RuleKey?) && SameFamily(k, g) && Owned(k, g.plugin)
  }

  /** The event has a say in what becomes of the record of k. */
  ghost predicate Settles(c: Change<Item>, k: Key) {
    if c.event == Delete then Ended(c.items, k) else Written(c.items, k) || Empties(c, k)
  }

  lemma {:induction false} ItemsWrite(m: Records, xs: seq<Item>, e: Event, k: Key)
    requires e != Delete
    ensures var r := ApplyItems(m, xs, e);
            (k in r <==> k in m || Written(xs, k)) && (k in m && !Written(xs, k) ==> r[k] == m[k])
  {
    if xs != [] {
      var n := |xs| - 1;
      ItemsWrite(m, xs[..n], e, k);
      assert Written(xs, k) <==> Written(xs[..n], k) || xs[n].key == k;
    }
  }

  lemma {:induction false} ItemsLast(m: Records, xs: seq<Item>, e: Event, i: nat, k: Key)
    requires e != Delete && LastItem(xs, i, k)
    ensures k in ApplyItems(m, xs, e) && ApplyItems(m, xs, e)[k] == xs[i].json
  {
    var n := |xs| - 1;
    if i < n {
      assert xs[n].key != k;
      ItemsLast(m, xs[..n], e, i, k);
    }
  }

  lemma {:induction false} ItemsDelete(m: Records, xs: seq<Item>, k: Key)
    ensures var r := ApplyItems(m, xs, Delete);
            (k in r <==> k in m && !Ended(xs, k)) && (k in r ==> r[k] == m[k])
  {
    if xs != [] {
      var n := |xs| - 1;
      ItemsDelete(m, xs[..n], k);
      assert Ended(xs, k) <==> Ended(xs[..n], k) || Ends(xs[n], k);
    }
  }

  /**
   What one event does to one record: a delete removes those it names and all that a deleted plugin
   owns, any other event writes the last item for the key, and a refresh of selectors or rules
   removes what else the plugin of its first item has; every other record is left alone.
   */
  lemma ChangeAt(m: Records, c: Change<Item>, k: Key)
    ensures var r := ApplyChange(m, c);
            if Settles(c, k)
            then (k in r <==> c.event != Delete && Written(c.items, k)) &&
                 forall i :: k in r && LastItem(c.items, i, k) ==> r[k] == c.items[i].json
            else (k in r <==> k in m) && (k in r ==> r[k] == m[k])
  {
    if c.event == Delete {
      ItemsDelete(m, c.items, k);
    } else {
      var base := ApplyPrologue(m, c);
      assert k in base <==> k in m && !Empties(c, k);
      ItemsWrite(base, c.items, c.event, k);
      forall i | LastItem(c.items, i, k) ensures ApplyChange(m, c)[k] == c.items[i].json {
        ItemsLast(base, c.items, c.event, i, k);
      }
    }
  }

  /** Event i is the last of the run with a say in k. */
  ghost predicate LastSay(cs: seq<Change<Item>>, i: int, k: Key) {
    0 <= i < |cs| && Settles(cs[i], k) && forall j :: i < j < |cs| ==> !Settles(cs[j], k)
  }

  lemma {:induction false} RunKeepsRecord(m: Records, cs: seq<Change<Item>>, k: Key)
    requires forall c :: c in cs ==> !Settles(c, k)
    ensures (k in ApplyRun(m, cs) <==> k in m) && (k in m ==> ApplyRun(m, cs)[k] == m[k])
  {
    if cs != [] {
      var n := |cs| - 1;
      RunKeepsRecord(m, cs[..n], k);
      ChangeAt(ApplyRun(m, cs[..n]), cs[n], k);
    }
  }

  /** After any events the last one with a say in k decides, by its last item for k. */
  lemma {:induction false} RunAt(m: Records, cs: seq<Change<Item>>, i: nat, k: Key)
    requires LastSay(cs, i, k)
    ensures var r, c := ApplyRun(m, cs), cs[i];
            (k in r <==> c.event != Delete && Written(c.items, k)) &&
            forall j :: k in r && LastItem(c.items, j, k) ==> r[k] == c.items[j].json
  {
    var n := |cs| - 1;
    ChangeAt(ApplyRun(m, cs[..n]), cs[n], k);
    if i < n {
      assert LastSay(cs[..n], i, k) && !Settles(cs[n], k);
      RunAt(m, cs[..n], i, k);
    }
  }

  /**
   Both stores in terms of the events alone: the path of a key holds the JSON of the last item of the
   last event with a say in it, if that event writes it, and nothing otherwise.
   */
  lemma StoredRun(cs: seq<Change<Item>>, names: set<string>, i: nat, k: Key)
    requires NamesOk(names) && PlainKey(k, names) && LastSay(cs, i, k)
    requires forall c, x :: c in cs && x in c.items ==> PlainKey(x.key, names)
    ensures var e, z, c := EtcdRun(map[], RunOps(cs)), ZkRun(map[], RunOps(cs)), cs[i];
            && z.Some? && (PathOf(k) in e <==> c.event != Delete && Written(c.items, k))
            && (PathOf(k) in Data(z.value) <==> PathOf(k) in e)
            && forall j :: PathOf(k) in e && LastItem(c.items, j, k) ==>
                 e[PathOf(k)] == c.items[j].json && Data(z.value)[PathOf(k)] == c.items[j].json
  {
    RunHolds(cs, names);
    RunAt(map[], cs, i, k);
  }

  // ---------- Refresh ----------

  lemma {:induction false} WrittenHasLast(xs: seq<Item>, k: Key) returns (i: nat)
    requires Written(xs, k)
    ensures LastItem(xs, i, k)
  {
    var n := |xs| - 1;
    if xs[n].key == k {
      i := n;
    } else {
      i := WrittenHasLast(xs[..n], k);
    }
  }

  /** A refresh whose items all belong to one plugin leaves exactly those items under it and nothing else changed. */
  lemma RefreshReplacesPlugin(m: Records, c: Change<Item>, g: Key, k: Key)
    requires c.event == Refresh && c.items != [] && (g.SelectorKey? || g.RuleKey?)
    requires forall x :: x in c.items ==> SameFamily(x.key, g) && x.key.plugin == g.plugin
    ensures var r := ApplyChange(m, c);
            if SameFamily(k, g) && Owned(k, g.plugin)
            then (k in r <==> exists x :: x in c.items && x.key == k) && (k in r ==> Item(k, r[k]) in c.items)
            else (k in r <==> k in m) && (k in r ==> r[k] == m[k])
  {
    ChangeAt(m, c, k);
    assert Written(c.items, k) <==> exists x :: x in c.items && x.key == k;
    if Written(c.items, k) {
      var i := WrittenHasLast(c.items, k);
    }
  }

  /** An empty refresh changes nothing: it does not say which plugin to empty. */
  lemma EmptyRefreshIsIgnored(m: Records, e: Flat, z: Tree)
    ensures ApplyChange(m, Change([], Refresh)) == m
    ensures EtcdRun(e, OpsOf(Change([], Refresh))) == e && ZkRun(z, OpsOf(Change([], Refresh))) == Some(z)
  {
  }
}
