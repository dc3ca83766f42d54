/**
 The ZooKeeper and Etcd handlers as imperative code over a client's store. The five handlers of a
 listener share one loop; they differ in the path of an item and in what precedes the loop.
 */
module PathListeners {
  import opened Events
  import opened Options
  import opened Paths
  import opened PathStores
  import opened KeyStores

  class EtcdClient {
    var kv: Flat

    constructor ()
      ensures kv == map[]
    {
      kv := map[];
    }

    method Put(key: string, value: string)
      modifies this
      ensures kv == EtcdOp(old(kv), Write(key, value))
    {
      kv := kv[key := value];
    }

    method Delete(key: string)
      modifies this
      ensures kv == EtcdOp(old(kv), Remove(key))
    {
      kv := kv - {key};
    }

    /** deleteEtcdPathRecursive: every key that starts with the path. */
    method DeletePrefix(path: string)
      modifies this
      ensures kv == EtcdOp(old(kv), RemoveAll(path))
    {
      kv := map q | q in kv && !(path <= q) :: kv[q];
    }
  }

  ghost predicate Plain(c: Change<Item>, names: set<string>) {
    forall x :: x in c.items ==> PlainKey(x.key, names)
  }

  ghost predicate Valid(c: Change<Item>, names: set<string>) {
    forall x :: x in c.items ==> ValidKey(x.key, names)
  }

  lemma EtcdSnoc(e: Flat, ops: seq<Op>, op: Op)
    ensures EtcdRun(e, ops + [op]) == EtcdOp(EtcdRun(e, ops), op)
  {
    assert (ops + [op])[..|ops|] == ops;
  }

  lemma EtcdItemsStep(e: Flat, xs: seq<Item>, i: nat, event: Event)
    requires i < |xs|
    ensures EtcdRun(e, ItemsOps(xs[..i + 1], event)) == EtcdRun(EtcdRun(e, ItemsOps(xs[..i], event)), ItemOps(xs[i], event))
  {
    assert xs[..i + 1][..i] == xs[..i];
    EtcdConcat(e, ItemsOps(xs[..i], event), ItemOps(xs[i], event));
  }

  class EtcdListener {
    const client: EtcdClient

    constructor (client: EtcdClient)
      ensures this.client == client
    {
      this.client := client;
    }

    method OnItem(x: Item, event: Event)
      modifies client
      ensures client.kv == EtcdRun(old(client.kv), ItemOps(x, event))
    {
      var path := PathOf(x.key);
      if event == Event.Delete {
        if x.key.PluginKey? {
          var n := x.key.plugin;
          EtcdThree(client.kv, RemoveAll(path), RemoveAll(SelectorParentPath(n)), RemoveAll(RuleParentPath(n)));
          client.DeletePrefix(path);
          client.DeletePrefix(SelectorParentPath(n));
          client.DeletePrefix(RuleParentPath(n));
        } else {
          EtcdOne(client.kv, Remove(path));
          client.Delete(path);
        }
        return;
      }
      EtcdOne(client.kv, Write(path, x.json));
      if x.key.SelectorKey? || x.key.RuleKey? {
        var parent := ItemOps(x, event)[0];
        EtcdOne(client.kv, parent);
        EtcdSnoc(client.kv, [parent], Write(path, x.json));
      }
      client.Put(path, x.json);
    }

    method OnItems(items: seq<Item>, event: Event)
      modifies client
      ensures client.kv == EtcdRun(old(client.kv), ItemsOps(items, event))
    {
      ghost var start := client.kv;
      var i := 0;
      while i < |items|
        invariant 0 <= i <= |items|
        invariant client.kv == EtcdRun(start, ItemsOps(items[..i], event))
      {
        EtcdItemsStep(start, items, i, event);
        OnItem(items[i], event);
        i := i + 1;
      }
      assert items[..i] == items;
    }

    /**
     The handler. A store that holds exactly the records m before the event holds exactly the records
     that the event makes of m after it.
     */
    method OnChanged(c: Change<Item>, ghost m: Records, ghost names: set<string>)
      modifies client
      ensures client.kv == EtcdRun(old(client.kv), OpsOf(c))
      ensures NamesOk(names) && Plain(c, names) && Holds(old(client.kv), m, names) ==>
                Holds(client.kv, ApplyChange(m, c), names)
    {
      if Prologue(c) != [] {
        var first := c.items[0].key;
        var parent := if first.SelectorKey? then SelectorParentPath(first.plugin) else RuleParentPath(first.plugin);
        EtcdOne(client.kv, RemoveAll(parent));
        client.DeletePrefix(parent);
      }
      OnItems(c.items, c.event);
      EtcdConcat(old(client.kv), Prologue(c), ItemsOps(c.items, c.event));
      if NamesOk(names) && Plain(c, names) && Holds(old(client.kv), m, names) {
        ChangeHolds(old(client.kv), m, c, names);
      }
    }
  }

  // ---------- ZooKeeper ----------

  lemma {:induction false} ZkConcat(z: Tree, a: seq<Op>, b: seq<Op>)
    ensures ZkRun(z, a + b) == if ZkRun(z, a).None? then None else ZkRun(ZkRun(z, a).value, b)
  {
    if b == [] {
      assert a + b == a;
    } else {
      ZkConcat(z, a, b[..|b| - 1]);
      assert (a + b)[..|a + b| - 1] == a + b[..|b| - 1];
    }
  }

  lemma ZkOne(z: Tree, op: Op)
    ensures ZkRun(z, [op]) == ZkOp(z, op)
  {
    assert [op][..0] == [];
  }

  class ZkListener {
    var nodes: Tree

    constructor ()
      ensures nodes == map[]
    {
      nodes := map[];
    }

    method CreateZkNode(path: string)
      modifies this
      ensures ZkOp(old(nodes), Ensure(path)) == Some(nodes)
    {
      if path !in nodes {
        nodes := CreateNode(nodes, path);
      }
    }

    method InsertZkNode(path: string, json: string)
      modifies this
      ensures ZkOp(old(nodes), Write(path, json)) == Some(nodes)
    {
      CreateZkNode(path);
      nodes := nodes[path := Some(json)];
    }

    /** Deletes a leaf; the client throws on a node with children. */
    method DeleteZkPath(path: string) returns (ok: bool)
      modifies this
      ensures ZkOp(old(nodes), Remove(path)) == if ok then Some(nodes) else None
      ensures !ok ==> nodes == old(nodes)
    {
      if path !in nodes {
        return true;
      }
      if exists q :: q in nodes && Under(q, path) {
        return false;
      }
      nodes := nodes - {path};
      ok := true;
    }

    method DeleteZkPathRecursive(path: string)
      modifies this
      ensures ZkOp(old(nodes), RemoveAll(path)) == Some(nodes)
    {
      if path in nodes {
        nodes := map q | q in nodes && q != path && !Under(q, path) :: nodes[q];
      }
    }

    method DeletePlugin(n: string)
      modifies this
      ensures ZkRun(old(nodes), [RemoveAll(PluginPath(n)), RemoveAll(SelectorParentPath(n)), RemoveAll(RuleParentPath(n))])
              == Some(nodes)
    {
      ghost var a, b, c := RemoveAll(PluginPath(n)), RemoveAll(SelectorParentPath(n)), RemoveAll(RuleParentPath(n));
      ZkOne(nodes, a);
      DeleteZkPathRecursive(PluginPath(n));
      assert [a, b][..1] == [a];
      DeleteZkPathRecursive(SelectorParentPath(n));
      assert [a, b, c][..2] == [a, b];
      DeleteZkPathRecursive(RuleParentPath(n));
    }

    method OnItem(x: Item, event: Event) returns (ok: bool)
      modifies this
      ensures ZkRun(old(nodes), ItemOps(x, event)) == if ok then Some(nodes) else None
    {
      var path := PathOf(x.key);
      if event == Delete {
        if x.key.PluginKey? {
          DeletePlugin(x.key.plugin);
          ok := true;
        } else {
          ZkOne(nodes, Remove(path));
          ok := DeleteZkPath(path);
        }
        return;
      }
      if x.key.SelectorKey? || x.key.RuleKey? {
        var parent := if x.key.SelectorKey? then SelectorParentPath(x.key.plugin) else RuleParentPath(x.key.plugin);
        ZkOne(nodes, Ensure(parent));
        CreateZkNode(parent);
        assert [Ensure(parent), Write(path, x.json)][..1] == [Ensure(parent)];
      } else {
        ZkOne(nodes, Write(path, x.json));
      }
      InsertZkNode(path, x.json);
      ok := true;
    }

    method OnItems(items: seq<Item>, event: Event) returns (ok: bool)
      modifies this
      ensures ZkRun(old(nodes), ItemsOps(items, event)) == if ok then Some(nodes) else None
    {
      ghost var start := nodes;
      var i := 0;
      ok := true;
      while i < |items| && ok
        invariant 0 <= i <= |items|
        invariant ZkRun(start, ItemsOps(items[..i], event)) == if ok then Some(nodes) else None
      {
        ItemsStep(start, items, i, event);
        ok := OnItem(items[i], event);
        i := i + 1;
      }
      if ok {
        assert items[..i] == items;
      } else {
        ItemsFail(start, items, i, event);
      }
    }

    method Clear(c: Change<Item>)
      modifies this
      ensures ZkRun(old(nodes), Prologue(c)) == Some(nodes)
    {
      if Prologue(c) != [] {
        var first := c.items[0].key;
        var parent := if first.SelectorKey? then SelectorParentPath(first.plugin) else RuleParentPath(first.plugin);
        ZkOne(nodes, RemoveAll(parent));
        DeleteZkPathRecursive(parent);
      }
    }

    /**
     The handler. On a tree of valid records it never throws, keeps the tree so, and does to the data
     what the Etcd handler does; the tree then holds what the event makes of the records it held.
     */
    method OnChanged(c: Change<Item>, ghost m: Records, ghost names: set<string>) returns (ok: bool)
      modifies this
      ensures ZkRun(old(nodes), OpsOf(c)) == if ok then Some(nodes) else None
      ensures NamesOk(names) && TreeOk(old(nodes), names) && Valid(c, names) ==>
                ok && TreeOk(nodes, names) && Data(nodes) == EtcdRun(Data(old(nodes)), OpsOf(c))
      ensures NamesOk(names) && TreeOk(old(nodes), names) && Plain(c, names) && Holds(Data(old(nodes)), m, names) ==>
                ok && Holds(Data(nodes), ApplyChange(m, c), names)
    {
      ZkConcat(nodes, Prologue(c), ItemsOps(c.items, c.event));
      Clear(c);
      ok := OnItems(c.items, c.event);
      if NamesOk(names) && TreeOk(old(nodes), names) && Valid(c, names) {
        ChangeAgrees(old(nodes), c, names);
        if Plain(c, names) && Holds(Data(old(nodes)), m, names) {
          ChangeHolds(Data(old(nodes)), m, c, names);
        }
      }
    }
  }

  lemma ItemsStep(z: Tree, xs: seq<Item>, i: nat, e: Event)
    requires i < |xs| && ZkRun(z, ItemsOps(xs[..i], e)).Some?
    ensures ZkRun(z, ItemsOps(xs[..i + 1], e)) == ZkRun(ZkRun(z, ItemsOps(xs[..i], e)).value, ItemOps(xs[i], e))
  {
    assert xs[..i + 1][..i] == xs[..i];
    ZkConcat(z, ItemsOps(xs[..i], e), ItemOps(xs[i], e));
  }

  lemma {:induction false} ItemsFail(z: Tree, xs: seq<Item>, i: nat, e: Event)
    requires i <= |xs| && ZkRun(z, ItemsOps(xs[..i], e)).None?
    ensures ZkRun(z, ItemsOps(xs, e)).None?
    decreases |xs| - i
  {
    if i == |xs| {
      assert xs[..i] == xs;
    } else {
      assert xs[..i + 1][..i] == xs[..i];
      ZkConcat(z, ItemsOps(xs[..i], e), ItemOps(xs[i], e));
      ItemsFail(z, xs, i + 1, e);
    }
  }
}
