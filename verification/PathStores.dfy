/**
 The ZooKeeper and Etcd listeners. Both turn an event into the same operations on path-keyed
 stores, but ZooKeeper is a tree with recursive delete and Etcd a flat map with prefix delete.
 */
module PathStores {
  import opened Events
  import opened Options
  import opened Paths

  /** One changed record: its key and its JSON. */
  datatype Item = Item(key: Key, json: string)

  datatype Op =
    | Ensure(path: string)                // create the node if absent; nothing in Etcd
    | Write(path: string, json: string)
    | Remove(path: string)
    | RemoveAll(path: string)             // recursive delete, prefix delete

  function ItemOps(x: Item, e: Event): seq<Op> {
    var path := PathOf(x.key);
    if e == Delete then
      if x.key.PluginKey? then
        var n := x.key.plugin;
        [RemoveAll(path), RemoveAll(SelectorParentPath(n)), RemoveAll(RuleParentPath(n))]
      else [Remove(path)]
    else
      match x.key
      case SelectorKey(n, _) => [Ensure(SelectorParentPath(n)), Write(path, x.json)]
      case RuleKey(n, _, _) => [Ensure(RuleParentPath(n)), Write(path, x.json)]
      case _ => [Write(path, x.json)]
  }

  /** A refresh of selectors or rules first empties the plugin of the first record. */
  function Prologue(c: Change<Item>): seq<Op> {
    if c.event != Refresh || c.items == [] then []
    else
      match c.items[0].key
      case SelectorKey(n, _) => [RemoveAll(SelectorParentPath(n))]
      case RuleKey(n, _, _) => [RemoveAll(RuleParentPath(n))]
      case _ => []
  }

  function ItemsOps(xs: seq<Item>, e: Event): seq<Op> {
    if xs == [] then [] else ItemsOps(xs[..|xs| - 1], e) + ItemOps(xs[|xs| - 1], e)
  }

  function OpsOf(c: Change<Item>): seq<Op> { Prologue(c) + ItemsOps(c.items, c.event) }

  function RunOps(cs: seq<Change<Item>>): seq<Op> {
    if cs == [] then [] else RunOps(cs[..|cs| - 1]) + OpsOf(cs[|cs| - 1])
  }

  // ---------- Etcd ----------

  type Flat = map<string, string>

  function EtcdOp(e: Flat, op: Op): Flat {
    match op
    case Ensure(_) => e
    case Write(p, v) => e[p := v]
    case Remove(p) => e - {p}
    case RemoveAll(p) => map q | q in e && !(p <= q) :: e[q]
  }

  function EtcdRun(e: Flat, ops: seq<Op>): Flat {
    if ops == [] then e else EtcdOp(EtcdRun(e, ops[..|ops| - 1]), ops[|ops| - 1])
  }

  // ---------- ZooKeeper ----------

  /** Nodes by path; a node created as somebody's parent carries no data. */
  type Tree = map<string, Option<string>>

  /** q is a proper descendant of p. */
  predicate Under(q: string, p: string) { |p| < |q| && q[..|p|] == p && q[|p|] == '/' }

  function Ancestors(p: string): set<string> {
    set k | 0 < k < |p| && p[k] == '/' :: p[..k]
  }

  /** createPersistent(path, true): the node and every missing ancestor. */
  function CreateNode(z: Tree, p: string): Tree {
    if p in z then z else z + map q | q in Ancestors(p) + {p} && q !in z :: None
  }

  /** One operation; None when the client throws, as deleting a node with children does. */
  function ZkOp(z: Tree, op: Op): Option<Tree> {
    match op
    case Ensure(p) => Some(CreateNode(z, p))
    case Write(p, v) => Some(CreateNode(z, p)[p := Some(v)])
    case Remove(p) =>
      if p !in z then Some(z)
      else if exists q :: q in z && Under(q, p) then None
      else Some(z - {p})
    case RemoveAll(p) =>
      if p !in z then Some(z)
      else Some(map q | q in z && q != p && !Under(q, p) :: z[q])
  }

  function ZkRun(z: Tree, ops: seq<Op>): Option<Tree> {
    if ops == [] then Some(z)
    else
      var r := ZkRun(z, ops[..|ops| - 1]);
      if r.None? then None else ZkOp(r.value, ops[|ops| - 1])
  }

  function Data(z: Tree): Flat { map q | q in z && z[q].Some? :: z[q].value }

  // ---------- When the two agree ----------

  ghost predicate Closed(z: Tree) {
    forall q, a :: q in z && a in Ancestors(q) ==> a in z
  }

  lemma UnderAncestor(q: string, p: string)
    requires Under(q, p) && p != ""
    ensures p in Ancestors(q)
  {
    assert q[..|p|] == p;
  }

  lemma AncestorUnder(q: string, a: string)
    requires a in Ancestors(q)
    ensures Under(q, a)
  {
  }

  lemma AncestorTransitive(q: string, p: string, a: string)
    requires p in Ancestors(q) && a in Ancestors(p)
    ensures a in Ancestors(q)
  {
    var k :| 0 < k < |q| && q[k] == '/' && p == q[..k];
    var j :| 0 < j < |p| && p[j] == '/' && a == p[..j];
    assert q[j] == '/' && q[..j] == a;
  }

  lemma CreateFacts(z: Tree, p: string)
    requires Closed(z)
    ensures Closed(CreateNode(z, p)) && p in CreateNode(z, p) && Data(CreateNode(z, p)) == Data(z)
    ensures forall q :: q in CreateNode(z, p) ==> q in z || q == p || q in Ancestors(p)
  {
    var z' := CreateNode(z, p);
    forall q, a | q in z' && a in Ancestors(q) ensures a in z' {
      if q in z {
        assert a in z;
      } else if q in Ancestors(p) {
        AncestorTransitive(p, q, a);
      }
    }
  }

  /** Asking for a parent node leaves it there, with all its ancestors and without data. */
  lemma EnsureFacts(z: Tree, p: string)
    requires Closed(z)
    ensures var r := ZkOp(z, Ensure(p));
            && r.Some? && p in r.value && (forall a :: a in Ancestors(p) ==> a in r.value)
            && Closed(r.value) && Data(r.value) == Data(z)
  {
    CreateFacts(z, p);
  }

  /** A prefix delete does what a recursive delete does exactly when no stored key runs past the path without a separator. */
  lemma PrefixDeleteAgrees(z: Tree, p: string)
    requires Closed(z) && p != ""
    ensures Data(ZkOp(z, RemoveAll(p)).value) == EtcdOp(Data(z), RemoveAll(p)) <==>
            forall q :: q in Data(z) && p <= q ==> q == p || Under(q, p)
  {
    var z', e' := ZkOp(z, RemoveAll(p)).value, EtcdOp(Data(z), RemoveAll(p));
    forall q | q in z && Under(q, p) ensures p in z {
      UnderAncestor(q, p);
    }
    forall q ensures q in Data(z') <==> q in Data(z) && q != p && !Under(q, p) {
    }
    if forall q :: q in Data(z) && p <= q ==> q == p || Under(q, p) {
      forall q ensures q in e' <==> q in Data(z') {
      }
      assert Data(z') == e';
    } else {
      var q :| q in Data(z) && p <= q && q != p && !Under(q, p);
      assert q in Data(z') && q !in e';
    }
  }

  /** Plugin names in use: none contains a separator, none is a proper prefix of another. */
  ghost predicate NamesOk(names: set<string>) {
    && (forall n :: n in names ==> '/' !in n)
    && (forall m, n :: m in names && n in names && m <= n ==> m == n)
  }

  ghost predicate ValidKey(k: Key, names: set<string>) {
    match k
    case AuthKey(a) => '/' !in a
    case MetaKey(p) => '/' !in p
    case PluginKey(n) => n in names
    case SelectorKey(n, s) => n in names && '/' !in s
    case RuleKey(n, s, r) => n in names && '/' !in s && '/' !in r
  }

  ghost predicate KeyPath(q: string, names: set<string>) {
    exists k :: ValidKey(k, names) && PathOf(k) == q
  }

  /** q is the path of a valid key or of one of its ancestors. */
  ghost predicate Grounded(q: string, names: set<string>) {
    exists k :: ValidKey(k, names) && (PathOf(k) == q || q in Ancestors(PathOf(k)))
  }

  /** The root of a plugin's records in one of the three families that have plugins. */
  ghost predicate PluginRoot(p: string, g: Key, n: string) {
    (g.PluginKey? || g.SelectorKey? || g.RuleKey?) && p == Root(g) + n
  }

  ghost predicate OpOk(op: Op, names: set<string>) {
    match op
    case Ensure(p) => Grounded(p, names)
    case Write(p, _) => KeyPath(p, names)
    case Remove(p) => KeyPath(p, names)
    case RemoveAll(p) => exists g, n :: n in names && PluginRoot(p, g, n)
  }

  ghost predicate TreeOk(z: Tree, names: set<string>) {
    && Closed(z)
    && (forall q :: q in z ==> Grounded(q, names))
    && (forall q :: q in Data(z) ==> KeyPath(q, names))
  }

  lemma PrefixOfFirst(n: string, m: string, rest: string)
    requires '/' !in n && n <= m + "/" + rest
    ensures n <= m
  {
    var t := m + "/" + rest;
    assert t[|m|] == '/';
    assert |n| <= |m|;
    assert n == t[..|n|] == m[..|n|];
  }

  /** The part of a record's path below its family's root. */
  lemma TailOf(p: string, g: Key, n: string, k: Key)
    requires PluginRoot(p, g, n) && p <= PathOf(k)
    ensures SameFamily(k, g) && PathOf(k) == Root(g) + Tail(k) && n <= Tail(k)
  {
    PathSplits(k);
    PathSplits(g);
    LongPath(g);
    assert p[8] == PathOf(g)[8];
    assert p[8] == PathOf(k)[8];
    FamilyLetter(k, g);
    var r := |Root(g)|;
    assert n == p[r..] && Tail(k) == PathOf(k)[r..];
  }

  lemma TailOfPlugin(n: string, k: Key, names: set<string>)
    requires NamesOk(names) && n in names && ValidKey(k, names) && (k.PluginKey? || k.SelectorKey? || k.RuleKey?)
    requires n <= Tail(k)
    ensures k.plugin == n && (Tail(k) == n || Under(Tail(k), n))
  {
    match k {
      case PluginKey(m) =>
      case SelectorKey(m, s) => PrefixOfFirst(n, m, s);
      case RuleKey(m, s, u) => PrefixOfFirst(n, m, s + "-" + u);
    }
  }

  /** A path that starts with a plugin's root belongs to that plugin and lies at the root or under it. */
  lemma StartsWithRoot(p: string, g: Key, n: string, k: Key, names: set<string>)
    requires NamesOk(names) && n in names && ValidKey(k, names) && PluginRoot(p, g, n)
    requires p <= PathOf(k)
    ensures SameFamily(k, g) && k.plugin == n
    ensures PathOf(k) == p || Under(PathOf(k), p)
  {
    TailOf(p, g, n, k);
    TailOfPlugin(n, k, names);
    var r, t := Root(g), Tail(k);
    if t != n {
      assert (r + t)[|p|] == t[|n|];
    }
  }

  /** Exactly a plugin's own records start with its root. */
  lemma OwnRecords(p: string, g: Key, n: string, k: Key, names: set<string>)
    requires NamesOk(names) && n in names && ValidKey(k, names) && PluginRoot(p, g, n)
    ensures p <= PathOf(k) <==> SameFamily(k, g) && k.plugin == n
  {
    if p <= PathOf(k) {
      StartsWithRoot(p, g, n, k, names);
    }
    if SameFamily(k, g) && k.plugin == n {
      PathSplits(k);
      assert n <= Tail(k);
      assert p == PathOf(k)[..|p|];
    }
  }

  lemma UnderTail(r: string, t: string, u: string)
    requires Under(r + t, r + u)
    ensures Under(t, u)
  {
    assert t == (r + t)[|r|..] && u == (r + u)[|r|..];
  }

  /** Records are leaves: no valid path lies under another. */
  lemma NoKeyUnder(k: Key, l: Key, names: set<string>)
    requires NamesOk(names) && ValidKey(k, names) && ValidKey(l, names)
    ensures !Under(PathOf(k), PathOf(l))
  {
    if Under(PathOf(k), PathOf(l)) {
      LongPath(l);
      assert PathOf(k)[8] == PathOf(l)[8];
      FamilyLetter(k, l);
      PathSplits(k);
      PathSplits(l);
      UnderTail(Root(k), Tail(k), Tail(l));
      TailsAreLeaves(k, l, names);
    }
  }

  lemma PairIsLeaf(m: string, a: string, n: string, b: string)
    requires '/' !in m && '/' !in a
    ensures !Under(m + "/" + a, n + "/" + b)
  {
    var t, u := m + "/" + a, n + "/" + b;
    assert forall i :: 0 <= i < |t| && t[i] == '/' ==> i == |m|;
    assert u[|n|] == '/';
  }

  lemma TailsAreLeaves(k: Key, l: Key, names: set<string>)
    requires NamesOk(names) && ValidKey(k, names) && ValidKey(l, names) && SameFamily(k, l)
    ensures !Under(Tail(k), Tail(l))
  {
    match k {
      case SelectorKey(n, s) => PairIsLeaf(n, s, l.plugin, l.selector);
      case RuleKey(n, s, r) => PairIsLeaf(n, s + "-" + r, l.plugin, l.selector + "-" + l.rule);
      case _ =>
    }
  }

  lemma UnderBelow(q: string, p: string, r: string)
    requires Under(q, p) && q in Ancestors(r)
    ensures Under(r, p)
  {
    var k :| 0 < k < |r| && r[k] == '/' && q == r[..k];
    assert r[..|p|] == q[..|p|] && r[|p|] == q[|p|];
  }

  lemma WriteAgrees(z: Tree, p: string, v: Option<string>, names: set<string>)
    requires TreeOk(z, names) && Grounded(p, names) && (v.Some? ==> KeyPath(p, names))
    ensures TreeOk(CreateNode(z, p), names)
    ensures v.Some? ==> TreeOk(CreateNode(z, p)[p := v], names) && Data(CreateNode(z, p)[p := v]) == Data(z)[p := v.value]
  {
    CreateFacts(z, p);
    var z' := CreateNode(z, p);
    forall q | q in z' ensures Grounded(q, names) {
      if q in Ancestors(p) {
        var k :| ValidKey(k, names) && (PathOf(k) == p || p in Ancestors(PathOf(k)));
        if PathOf(k) != p {
          AncestorTransitive(PathOf(k), p, q);
        }
        assert q in Ancestors(PathOf(k));
      }
    }
    if v.Some? {
      assert Data(z'[p := v]) == Data(z')[p := v.value];
    }
  }

  lemma RemoveAgrees(z: Tree, p: string, names: set<string>)
    requires NamesOk(names) && TreeOk(z, names) && KeyPath(p, names)
    ensures var r := ZkOp(z, Remove(p)); r.Some? && TreeOk(r.value, names) && Data(r.value) == Data(z) - {p}
  {
    var l :| ValidKey(l, names) && PathOf(l) == p;
    forall q | q in z ensures !Under(q, p) {
      var k :| ValidKey(k, names) && (PathOf(k) == q || q in Ancestors(PathOf(k)));
      NoKeyUnder(k, l, names);
      if Under(q, p) && PathOf(k) != q {
        UnderBelow(q, p, PathOf(k));
      }
    }
    var z' := z - {p};
    LongPath(l);
    forall q, a | q in z' && a in Ancestors(q) ensures a in z' {
      AncestorUnder(q, a);
    }
  }

  lemma RemoveAllAgrees(z: Tree, p: string, g: Key, n: string, names: set<string>)
    requires NamesOk(names) && TreeOk(z, names) && n in names && PluginRoot(p, g, n)
    ensures var r := ZkOp(z, RemoveAll(p));
            r.Some? && TreeOk(r.value, names) && Data(r.value) == EtcdOp(Data(z), RemoveAll(p))
  {
    PrefixDeleteAgrees(z, p);
    forall q | q in Data(z) && p <= q ensures q == p || Under(q, p) {
      var k :| ValidKey(k, names) && PathOf(k) == q;
      StartsWithRoot(p, g, n, k, names);
    }
    var z' := ZkOp(z, RemoveAll(p)).value;
    forall q, a | q in z' && a in Ancestors(q) ensures a in z' {
      AncestorUnder(q, a);
      if Under(a, p) {
        UnderBelow(a, p, q);
      }
    }
    forall q | q in z' ensures Grounded(q, names) {
      assert q in z;
    }
  }

  /** Every operation the listeners issue keeps the two stores equal on data-carrying keys, and ZooKeeper never throws. */
  lemma OpAgrees(z: Tree, op: Op, names: set<string>)
    requires NamesOk(names) && TreeOk(z, names) && OpOk(op, names)
    ensures var r := ZkOp(z, op); r.Some? && TreeOk(r.value, names) && Data(r.value) == EtcdOp(Data(z), op)
  {
    match op {
      case Ensure(p) =>
        WriteAgrees(z, p, None, names);
        CreateFacts(z, p);
      case Write(p, v) => WriteAgrees(z, p, Some(v), names);
      case Remove(p) => RemoveAgrees(z, p, names);
      case RemoveAll(p) =>
        var g, n :| n in names && PluginRoot(p, g, n);
        RemoveAllAgrees(z, p, g, n, names);
    }
  }

  /** From any tree of valid records, operations keep the two stores equal and ZooKeeper never throws. */
  lemma {:induction false} OpsAgree(z: Tree, ops: seq<Op>, names: set<string>)
    requires NamesOk(names) && TreeOk(z, names) && forall op :: op in ops ==> OpOk(op, names)
    ensures var r := ZkRun(z, ops); r.Some? && TreeOk(r.value, names) && Data(r.value) == EtcdRun(Data(z), ops)
  {
    if ops != [] {
      OpsAgree(z, ops[..|ops| - 1], names);
      OpAgrees(ZkRun(z, ops[..|ops| - 1]).value, ops[|ops| - 1], names);
    }
  }

  ghost predicate EventsOk(cs: seq<Change<Item>>, names: set<string>) {
    forall c, x :: c in cs && x in c.items ==> ValidKey(x.key, names)
  }

  /** The parent node of a selector or a rule is an ancestor of its path. */
  lemma ParentGrounded(k: Key, parent: string, names: set<string>)
    requires ValidKey(k, names) && Under(PathOf(k), parent) && parent != ""
    ensures Grounded(parent, names)
  {
    UnderAncestor(PathOf(k), parent);
  }

  lemma RecordUnderParent(k: Key, parent: string)
    requires (k.SelectorKey? && parent == SelectorParentPath(k.plugin)) || (k.RuleKey? && parent == RuleParentPath(k.plugin))
    ensures Under(PathOf(k), parent) && parent != ""
  {
    var rest := if k.SelectorKey? then k.selector else k.selector + "-" + k.rule;
    assert PathOf(k) == parent + "/" + rest;
  }

  lemma DeletePluginOk(n: string, names: set<string>)
    requires n in names
    ensures OpOk(RemoveAll(PluginPath(n)), names) && OpOk(RemoveAll(SelectorParentPath(n)), names)
    ensures OpOk(RemoveAll(RuleParentPath(n)), names)
  {
    assert PluginRoot(PluginPath(n), PluginKey(n), n);
    assert PluginRoot(SelectorParentPath(n), SelectorKey(n, ""), n);
    assert PluginRoot(RuleParentPath(n), RuleKey(n, "", ""), n);
  }

  lemma ItemOpsOk(x: Item, e: Event, names: set<string>)
    requires ValidKey(x.key, names)
    ensures forall op :: op in ItemOps(x, e) ==> OpOk(op, names)
  {
    var k := x.key;
    assert KeyPath(PathOf(k), names);
    if k.PluginKey? {
      DeletePluginOk(k.plugin, names);
    } else if k.SelectorKey? || k.RuleKey? {
      var parent := if k.SelectorKey? then SelectorParentPath(k.plugin) else RuleParentPath(k.plugin);
      RecordUnderParent(k, parent);
      ParentGrounded(k, parent, names);
    }
  }

  lemma {:induction false} ItemsOpsOk(xs: seq<Item>, e: Event, names: set<string>)
    requires forall x :: x in xs ==> ValidKey(x.key, names)
    ensures forall op :: op in ItemsOps(xs, e) ==> OpOk(op, names)
  {
    if xs != [] {
      ItemsOpsOk(xs[..|xs| - 1], e, names);
      ItemOpsOk(xs[|xs| - 1], e, names);
    }
  }

  lemma PrologueOk(c: Change<Item>, names: set<string>)
    requires forall x :: x in c.items ==> ValidKey(x.key, names)
    ensures forall op :: op in Prologue(c) ==> OpOk(op, names)
  {
    if Prologue(c) != [] {
      var k := c.items[0].key;
      assert c.items[0] in c.items;
      assert PluginRoot(Prologue(c)[0].path, k, k.plugin);
    }
  }

  lemma {:induction false} RunOpsOk(cs: seq<Change<Item>>, names: set<string>)
    requires EventsOk(cs, names)
    ensures forall op :: op in RunOps(cs) ==> OpOk(op, names)
  {
    if cs != [] {
      var c := cs[|cs| - 1];
      assert c in cs && forall d :: d in cs[..|cs| - 1] ==> d in cs;
      RunOpsOk(cs[..|cs| - 1], names);
      OpsOfOk(c, names);
    }
  }

  lemma OpsOfOk(c: Change<Item>, names: set<string>)
    requires forall x :: x in c.items ==> ValidKey(x.key, names)
    ensures forall op :: op in OpsOf(c) ==> OpOk(op, names)
  {
    PrologueOk(c, names);
    ItemsOpsOk(c.items, c.event, names);
  }

  /** One event, on any tree of valid records. */
  lemma ChangeAgrees(z: Tree, c: Change<Item>, names: set<string>)
    requires NamesOk(names) && TreeOk(z, names) && forall x :: x in c.items ==> ValidKey(x.key, names)
    ensures var r := ZkRun(z, OpsOf(c)); r.Some? && TreeOk(r.value, names) && Data(r.value) == EtcdRun(Data(z), OpsOf(c))
  {
    OpsOfOk(c, names);
    OpsAgree(z, OpsOf(c), names);
  }

  /** After any events the ZooKeeper tree and the Etcd map hold the same data. */
  lemma StoresAgree(cs: seq<Change<Item>>, names: set<string>)
    requires NamesOk(names) && EventsOk(cs, names)
    ensures ZkRun(map[], RunOps(cs)).Some?
    ensures Data(ZkRun(map[], RunOps(cs)).value) == EtcdRun(map[], RunOps(cs))
  {
    RunOpsOk(cs, names);
    assert Data(map[]) == map[];
    OpsAgree(map[], RunOps(cs), names);
  }

  /** When one plugin name is a proper prefix of another, deleting it in Etcd takes the other plugin along. */
  lemma PrefixNamesDiverge(n: string, ext: string, v: string)
    requires ext != "" && '/' !in ext
    ensures var z := CreateNode(map[], PluginPath(n + ext))[PluginPath(n + ext) := Some(v)];
            var z' := ZkOp(z, RemoveAll(PluginPath(n)));
            && z'.Some? && PluginPath(n + ext) in Data(z'.value)
            && PluginPath(n + ext) !in EtcdOp(Data(z), RemoveAll(PluginPath(n)))
  {
    var p, q := PluginPath(n), PluginPath(n + ext);
    assert q == p + ext;
    assert p <= q;
    assert q[|p|] == ext[0] && ext[0] in ext;
  }
}
