/**
 The handlers of the Nacos and Consul listeners as imperative code over shared maps. Each contract
 names the published map only: what the listener held before the call does not occur in it.
 */
module ConfigListener {
  import opened Events
  import opened StableSort
  import opened ConfigMaps
  import opened NestedMaps

  /** The remote configuration service, one decoded object per data id. */
  class ConfigStore {
    var auth: map<string, Keyed>
    var plugin: map<string, Keyed>
    var meta: map<string, Meta>
    var selector: Lists
    var rule: Lists
  }

  /** update*Map: overwrite entry by entry, remembering the keys that are no longer published. */
  method UpdateMap<T>(local: map<string, T>, remote: map<string, T>) returns (m: map<string, T>)
    ensures m == remote
  {
    m := local;
    var stale, todo := local.Keys, remote.Keys;
    while todo != {}
      invariant forall k :: k in todo ==> k in remote
      invariant forall k :: k in stale <==> k in local && (k in todo || k !in remote)
      invariant forall k :: k in m <==> k in local || (k in remote && k !in todo)
      invariant forall k :: k in m && k in remote && k !in todo ==> m[k] == remote[k]
      decreases |todo|
    {
      var k :| k in todo;
      stale := stale - {k};
      m := m[k := remote[k]];
      todo := todo - {k};
    }
    m := m - stale;
  }

  /** The switch of onAppAuthChanged and onPluginChanged. */
  method UpdateKeyed(base: map<string, Keyed>, c: Change<Keyed>) returns (m: map<string, Keyed>)
    ensures m == ApplyKeyed(base, c)
  {
    m := base;
    var stale := base.Keys;
    var i := 0;
    while i < |c.items|
      invariant 0 <= i <= |c.items|
      invariant c.event == Delete ==> m == RemoveAll(base, c.items[..i], KeyOf)
      invariant c.event != Delete ==> m == PutAll(base, c.items[..i], KeyOf)
      invariant stale == base.Keys - PutAll(map[], c.items[..i], KeyOf).Keys
      invariant c.event != Delete ==> m - stale == PutAll(map[], c.items[..i], KeyOf)
    {
      var x := c.items[i];
      assert c.items[..i + 1][..i] == c.items[..i];
      if c.event == Delete {
        m := m - {x.key};
      } else {
        m := m[x.key := x];
      }
      stale := stale - {x.key};
      i := i + 1;
    }
    assert c.items[..i] == c.items;
    if ReplacesAll(c.event) {
      m := m - stale;
    }
  }

  /** The entries of one id, removed by the path each entry carries. */
  method RemoveById(base: map<string, Meta>, id: string) returns (m: map<string, Meta>)
    ensures m == base - (set k | k in base && base[k].id == id :: base[k].path)
  {
    m := base;
    var todo := base.Keys;
    while todo != {}
      invariant todo <= base.Keys
      invariant m == base - (set k | k in base.Keys - todo && base[k].id == id :: base[k].path)
      decreases |todo|
    {
      var k :| k in todo;
      if base[k].id == id {
        m := m - {base[k].path};
      }
      todo := todo - {k};
    }
  }

  method UpdateMeta(base: map<string, Meta>, c: Change<Meta>) returns (m: map<string, Meta>)
    ensures m == ApplyMeta(base, c)
  {
    m := if ReplacesAll(c.event) then map[] else base;
    ghost var start := m;
    var i := 0;
    while i < |c.items|
      invariant 0 <= i <= |c.items|
      invariant c.event == Delete ==> m == RemoveAll(start, c.items[..i], PathOf)
      invariant ReplacesAll(c.event) ==> m == PutAll(start, c.items[..i], PathOf)
      invariant c.event == Create || c.event == Update ==> m == PutMetas(start, c.items[..i])
    {
      var x := c.items[i];
      assert c.items[..i + 1][..i] == c.items[..i];
      if c.event == Delete {
        m := m - {x.path};
      } else if ReplacesAll(c.event) {
        m := m[x.path := x];
      } else {
        m := RemoveById(m, x.id);
        m := m[x.path := x];
      }
      i := i + 1;
    }
    assert c.items[..i] == c.items;
  }

  predicate Listed(s: seq<Nested>, y: Nested) { y in s }

  /** The switch of onSelectorChanged and onRuleChanged, for one item. */
  method UpdateList(was: seq<Nested>, x: Nested, event: Event, kind: Kind) returns (ls: seq<Nested>)
    ensures ls == OneList(was, x, OpOf(event, kind))
    ensures SortedButLast(ls)
    ensures forall y :: Listed(ls, y) <==> (Listed(was, y) && (ReplacesAll(event) || y.id != x.id)) || (event != Delete && y == x)
  {
    OneListInOrder(was, x, OpOf(event, kind));
    forall y ensures Listed(OneList(was, x, OpOf(event, kind)), y) <==>
                       (Listed(was, y) && (ReplacesAll(event) || y.id != x.id)) || (event != Delete && y == x) {
      ListMembers(was, x, OpOf(event, kind), y);
    }
    match event {
      case Delete =>
        ls := Sort(Drop(was, x.id), SortKey);
      case Refresh | Myself =>
        ls := Sort(was, SortKey) + [x];
      case Create | Update =>
        if kind == Selector {
          ls := Sort(Drop(was, x.id), SortKey) + [x];
        } else {
          ls := Sort(Drop(was, x.id) + [x], SortKey);
        }
    }
  }

  method UpdateItems(start: Lists, items: seq<Nested>, event: Event, kind: Kind) returns (m: Lists)
    ensures m == Fold(start, items, OpOf(event, kind))
  {
    m := start;
    var i := 0;
    while i < |items|
      invariant 0 <= i <= |items|
      invariant m == Fold(start, items[..i], OpOf(event, kind))
    {
      var x := items[i];
      assert items[..i + 1] == items[..i] + [x];
      FoldSnoc(start, items[..i], x, OpOf(event, kind));
      var ls := UpdateList(Children(m, x.parent), x, event, kind);
      m := m[x.parent := ls];
      i := i + 1;
    }
    assert items[..i] == items;
  }

  method UpdateNested(base: Lists, c: Change<Nested>, kind: Kind) returns (m: Lists)
    ensures m == ApplyNested(kind)(base, c)
  {
    if ReplacesAll(c.event) {
      m := UpdateItems(map[], c.items, c.event, kind);
    } else {
      m := UpdateItems(base, c.items, c.event, kind);
    }
  }

  class Listener {
    const store: ConfigStore
    var authMap: map<string, Keyed>
    var pluginMap: map<string, Keyed>
    var metaData: map<string, Meta>
    var selectorMap: Lists
    var ruleMap: Lists

    constructor (store: ConfigStore)
      ensures this.store == store
    {
      this.store := store;
      authMap, pluginMap, metaData, selectorMap, ruleMap := map[], map[], map[], map[], map[];
    }

    method OnAppAuthChanged(c: Change<Keyed>)
      modifies `authMap, store`auth
      ensures authMap == ApplyKeyed(old(store.auth), c)
      ensures store.auth == EncodeKeyed(ApplyKeyed(old(store.auth), c))
    {
      authMap := UpdateMap(authMap, store.auth);
      authMap := UpdateKeyed(authMap, c);
      store.auth := EncodeKeyed(authMap);
    }

    method OnPluginChanged(c: Change<Keyed>)
      modifies `pluginMap, store`plugin
      ensures pluginMap == ApplyKeyed(old(store.plugin), c)
      ensures store.plugin == EncodeKeyed(ApplyKeyed(old(store.plugin), c))
    {
      pluginMap := UpdateMap(pluginMap, store.plugin);
      pluginMap := UpdateKeyed(pluginMap, c);
      store.plugin := EncodeKeyed(pluginMap);
    }

    method OnMetaDataChanged(c: Change<Meta>)
      modifies `metaData, store`meta
      ensures metaData == ApplyMeta(old(store.meta), c)
      ensures store.meta == EncodeMeta(ApplyMeta(old(store.meta), c))
    {
      metaData := UpdateMap(metaData, store.meta);
      metaData := UpdateMeta(metaData, c);
      store.meta := EncodeMeta(metaData);
    }

    method OnSelectorChanged(c: Change<Nested>)
      modifies `selectorMap, store`selector
      ensures selectorMap == ApplyNested(Selector)(old(store.selector), c)
      ensures store.selector == EncodeNested(ApplyNested(Selector)(old(store.selector), c))
    {
      selectorMap := UpdateMap(selectorMap, store.selector);
      selectorMap := UpdateNested(selectorMap, c, Selector);
      store.selector := EncodeNested(selectorMap);
    }

    method OnRuleChanged(c: Change<Nested>)
      modifies `ruleMap, store`rule
      ensures ruleMap == ApplyNested(Rule)(old(store.rule), c)
      ensures store.rule == EncodeNested(ApplyNested(Rule)(old(store.rule), c))
    {
      ruleMap := UpdateMap(ruleMap, store.rule);
      ruleMap := UpdateNested(ruleMap, c, Rule);
      store.rule := EncodeNested(ruleMap);
    }
  }
}
