/**
 The read-modify-write synchronisers over Nacos and Consul: five maps, each published as one
 JSON object. Every handler first makes its local map mirror the published one, then applies the
 event, then publishes the whole map again.

 A published map is modelled by its decoded value. Encoding turns a blank string field into null,
 and decoding leaves it null; `body` stands for such a field.
 */
module ConfigMaps {
  import opened Events
  import opened Options
  import opened Text

  /** AppAuthData filed by appKey, PluginData filed by name. */
  datatype Keyed = Keyed(key: string, body: Option<string>)
  /** MetaData filed by path; `id` identifies the record. */
  datatype Meta = Meta(id: string, path: string, body: Option<string>)
  /** SelectorData in the list of its plugin name, RuleData in the list of its selector id. */
  datatype Nested = Nested(parent: string, id: string, sort: int, body: Option<string>)

  /** Selectors are appended after sorting, rules are sorted after appending. */
  datatype Kind = Selector | Rule

  // ---------- JSON round trip ----------

  function Clean(t: Option<string>): Option<string> {
    if t.Some? && Blank(t.value) then None else t
  }

  function CleanKeyed(x: Keyed): Keyed { x.(body := Clean(x.body)) }
  function CleanMeta(x: Meta): Meta { x.(body := Clean(x.body)) }
  function CleanNested(x: Nested): Nested { x.(body := Clean(x.body)) }

  function CleanList(s: seq<Nested>): seq<Nested> {
    seq(|s|, i requires 0 <= i < |s| => CleanNested(s[i]))
  }

  function EncodeKeyed(m: map<string, Keyed>): map<string, Keyed> { map k | k in m :: CleanKeyed(m[k]) }
  function EncodeMeta(m: map<string, Meta>): map<string, Meta> { map k | k in m :: CleanMeta(m[k]) }
  function EncodeNested(m: map<string, seq<Nested>>): map<string, seq<Nested>> { map k | k in m :: CleanList(m[k]) }

  /** Publishing what was read back changes nothing more. */
  lemma EncodeIdempotent(k: map<string, Keyed>, d: map<string, Meta>, n: map<string, seq<Nested>>)
    ensures EncodeKeyed(EncodeKeyed(k)) == EncodeKeyed(k)
    ensures EncodeMeta(EncodeMeta(d)) == EncodeMeta(d)
    ensures EncodeNested(EncodeNested(n)) == EncodeNested(n)
  {
    forall p | p in n ensures CleanList(CleanList(n[p])) == CleanList(n[p]) {
    }
  }

  /** A field is published as null exactly if it was null or blank, and otherwise as itself. */
  lemma CleanFacts(t: Option<string>)
    ensures Clean(t).None? <==> t.None? || Blank(t.value)
    ensures Clean(t).Some? ==> Clean(t) == t
  {
  }

  /** Publishing keeps every entry under its key, with its identity, order and every field that is not blank. */
  lemma EncodeFacts(k: map<string, Keyed>, d: map<string, Meta>, n: map<string, seq<Nested>>, p: string)
    ensures p in EncodeKeyed(k) <==> p in k
    ensures p in k ==> var x := EncodeKeyed(k)[p]; x == Keyed(k[p].key, x.body) && (x.body == k[p].body || x.body == None)
    ensures p in k && k[p].body.Some? && !Blank(k[p].body.value) ==> EncodeKeyed(k)[p] == k[p]
    ensures p in EncodeMeta(d) <==> p in d
    ensures p in d ==> var x := EncodeMeta(d)[p]; x == Meta(d[p].id, d[p].path, x.body) && (x.body == d[p].body || x.body == None)
    ensures p in d && d[p].body.Some? && !Blank(d[p].body.value) ==> EncodeMeta(d)[p] == d[p]
    ensures p in EncodeNested(n) <==> p in n
    ensures p in n ==> |EncodeNested(n)[p]| == |n[p]|
    ensures forall i :: p in n && 0 <= i < |n[p]| ==>
              var x, y := EncodeNested(n)[p][i], n[p][i];
              x == y.(body := x.body) && (if y.body.Some? && !Blank(y.body.value) then x == y else x.body == None)
  {
  }

  // ---------- Any number of admin nodes ----------

  /** Overwrite with every published entry, then remove the keys that are not published. */
  function Mirror<T>(local: map<string, T>, remote: map<string, T>): map<string, T> {
    (local + remote) - (local.Keys - remote.Keys)
  }

  lemma MirrorIsRemote<T>(local: map<string, T>, remote: map<string, T>)
    ensures Mirror(local, remote) == remote
  {
  }

  /** The published maps after `events`, seen as one fold with no local state at all. */
  function Publish<T, E>(update: (map<string, T>, E) -> map<string, T>, encode: map<string, T> -> map<string, T>,
                         remote: map<string, T>, events: seq<E>): map<string, T>
    decreases |events|
  {
    if events == [] then remote
    else Publish(update, encode, encode(update(remote, events[0])), events[1..])
  }

  /** The published map after a serial schedule of events, each handled by the node it names. */
  function Cluster<T, E>(update: (map<string, T>, E) -> map<string, T>, encode: map<string, T> -> map<string, T>,
                         nodes: nat -> map<string, T>, remote: map<string, T>, schedule: seq<(nat, E)>): map<string, T>
    decreases |schedule|
  {
    if schedule == [] then remote
    else
      var (n, e) := schedule[0];
      var local := update(Mirror(nodes(n), remote), e);
      Cluster(update, encode, (k: nat) => if k == n then local else nodes(k), encode(local), schedule[1..])
  }

  function EventsOf<E>(schedule: seq<(nat, E)>): seq<E> {
    seq(|schedule|, i requires 0 <= i < |schedule| => schedule[i].1)
  }

  /** Whatever the nodes hold and however the events are spread over them, only the events matter. */
  lemma {:induction false} ClusterPublishes<T, E>(
    update: (map<string, T>, E) -> map<string, T>, encode: map<string, T> -> map<string, T>,
    nodes: nat -> map<string, T>, remote: map<string, T>, schedule: seq<(nat, E)>)
    ensures Cluster(update, encode, nodes, remote, schedule) == Publish(update, encode, remote, EventsOf(schedule))
    decreases |schedule|
  {
    if schedule != [] {
      var (n, e) := schedule[0];
      MirrorIsRemote(nodes(n), remote);
      var local := update(remote, e);
      ClusterPublishes(update, encode, (k: nat) => if k == n then local else nodes(k), encode(local), schedule[1..]);
      assert EventsOf(schedule)[1..] == EventsOf(schedule[1..]);
    }
  }

  /** Two clusters with different nodes, stale maps and assignments publish the same. */
  lemma NodesDoNotMatter<T, E>(
    update: (map<string, T>, E) -> map<string, T>, encode: map<string, T> -> map<string, T>,
    nodes: nat -> map<string, T>, single: map<string, T>, remote: map<string, T>, schedule: seq<(nat, E)>)
    ensures Cluster(update, encode, nodes, remote, schedule) ==
            Cluster(update, encode, (_: nat) => single, remote, seq(|schedule|, i requires 0 <= i < |schedule| => (0, schedule[i].1)))
  {
    var alone := seq(|schedule|, i requires 0 <= i < |schedule| => (0, schedule[i].1));
    ClusterPublishes(update, encode, nodes, remote, schedule);
    ClusterPublishes(update, encode, (_: nat) => single, remote, alone);
    assert EventsOf(alone) == EventsOf(schedule);
  }

  // ---------- Maps filed by one key ----------

  function PutAll<T>(m: map<string, T>, xs: seq<T>, key: T -> string): map<string, T> {
    if xs == [] then m else PutAll(m, xs[..|xs| - 1], key)[key(xs[|xs| - 1]) := xs[|xs| - 1]]
  }

  function RemoveAll<T>(m: map<string, T>, xs: seq<T>, key: T -> string): map<string, T> {
    if xs == [] then m else RemoveAll(m, xs[..|xs| - 1], key) - {key(xs[|xs| - 1])}
  }

  function KeyOf(x: Keyed): string { x.key }
  function PathOf(x: Meta): string { x.path }

  function ApplyKeyed(m: map<string, Keyed>, c: Change<Keyed>): map<string, Keyed> {
    match c.event
    case Delete => RemoveAll(m, c.items, KeyOf)
    case Refresh | Myself => PutAll(map[], c.items, KeyOf)
    case Create | Update => PutAll(m, c.items, KeyOf)
  }

  /** Item i is the last of the batch with key k. */
  ghost predicate LastAt<T>(xs: seq<T>, key: T -> string, i: int, k: string) {
    0 <= i < |xs| && key(xs[i]) == k && forall j :: i < j < |xs| ==> key(xs[j]) != k
  }

  ghost predicate Names<T>(xs: seq<T>, key: T -> string, k: string) {
    exists i :: 0 <= i < |xs| && key(xs[i]) == k
  }

  lemma {:induction false} PutAllFacts<T>(m: map<string, T>, xs: seq<T>, key: T -> string, k: string)
    ensures k in PutAll(m, xs, key) <==> k in m || Names(xs, key, k)
    ensures forall i :: LastAt(xs, key, i, k) ==> k in PutAll(m, xs, key) && PutAll(m, xs, key)[k] == xs[i]
    ensures k in m && !Names(xs, key, k) ==> PutAll(m, xs, key)[k] == m[k]
  {
    if xs != [] {
      var n := |xs| - 1;
      PutAllFacts(m, xs[..n], key, k);
      assert Names(xs, key, k) <==> Names(xs[..n], key, k) || key(xs[n]) == k;
      forall i | LastAt(xs, key, i, k) && i < n ensures LastAt(xs[..n], key, i, k) && key(xs[n]) != k {
      }
    }
  }

  /**
   What an event does to one key: the last item that names it decides, unless the event deletes; a
   key that no item names is kept, unless the event replaces everything.
   */
  lemma KeyedEvent(m: map<string, Keyed>, c: Change<Keyed>, k: string)
    ensures var r := ApplyKeyed(m, c);
            if Names(c.items, KeyOf, k)
            then (k in r <==> c.event != Delete) &&
                 forall i :: k in r && LastAt(c.items, KeyOf, i, k) ==> r[k] == c.items[i]
            else (k in r <==> k in m && c.event != Refresh && c.event != Myself) && (k in r ==> r[k] == m[k])
  {
    if c.event == Delete {
      RemoveAllShrinks(m, c.items, KeyOf);
      assert Names(c.items, KeyOf, k) <==> exists x :: x in c.items && KeyOf(x) == k;
    } else {
      PutAllFacts(if c.event == Refresh || c.event == Myself then map[] else m, c.items, KeyOf, k);
    }
  }

  /** The event has a say in what becomes of key k. */
  ghost predicate Decides(c: Change<Keyed>, k: string) { ReplacesAll(c.event) || Names(c.items, KeyOf, k) }

  /** Event i is the last of the run that has a say in k. */
  ghost predicate LastWord(events: seq<Change<Keyed>>, i: int, k: string) {
    0 <= i < |events| && Decides(events[i], k) && forall j :: i < j < |events| ==> !Decides(events[j], k)
  }

  lemma UndecidedStep(m: map<string, Keyed>, c: Change<Keyed>, k: string)
    requires !Decides(c, k)
    ensures var r := EncodeKeyed(ApplyKeyed(m, c)); (k in r <==> k in m) && (k in r ==> r[k] == CleanKeyed(m[k]))
  {
    KeyedEvent(m, c, k);
  }

  lemma CleanTwice(x: Keyed)
    ensures CleanKeyed(CleanKeyed(x)) == CleanKeyed(x)
  {
  }

  /** Events that have no say in k leave it as it was, read back once. */
  lemma {:induction false} KeyedUndecided(remote: map<string, Keyed>, events: seq<Change<Keyed>>, k: string)
    requires forall c :: c in events ==> !Decides(c, k)
    ensures var r := Publish(ApplyKeyed, EncodeKeyed, remote, events);
            (k in r <==> k in remote) &&
            (k in r ==> r[k] == if events == [] then remote[k] else CleanKeyed(remote[k]))
    decreases |events|
  {
    if events != [] {
      var next := EncodeKeyed(ApplyKeyed(remote, events[0]));
      UndecidedStep(remote, events[0], k);
      KeyedUndecided(next, events[1..], k);
      if k in remote { CleanTwice(remote[k]); }
    }
  }

  /**
   The published map after any run, key by key: the last event with a say decides, by its last item
   for the key; without such an event the key is as it was published before the run.
   */
  lemma {:induction false} KeyedRun(remote: map<string, Keyed>, events: seq<Change<Keyed>>, i: nat, k: string)
    requires LastWord(events, i, k)
    ensures var r, c := Publish(ApplyKeyed, EncodeKeyed, remote, events), events[i];
            (k in r <==> c.event != Delete && Names(c.items, KeyOf, k)) &&
            forall j :: k in r && LastAt(c.items, KeyOf, j, k) ==> r[k] == CleanKeyed(c.items[j])
    decreases |events|
  {
    var next := EncodeKeyed(ApplyKeyed(remote, events[0]));
    if i > 0 {
      assert LastWord(events[1..], i - 1, k);
      KeyedRun(next, events[1..], i - 1, k);
    } else {
      KeyedEvent(remote, events[0], k);
      KeyedUndecided(next, events[1..], k);
    }
  }

  // ---------- Metadata ----------

  /** Create or update: forget every entry of that id, then file the new one under its path. */
  function PutMeta(m: map<string, Meta>, x: Meta): map<string, Meta> {
    (m - (set k | k in m && m[k].id == x.id :: m[k].path))[x.path := x]
  }

  function PutMetas(m: map<string, Meta>, xs: seq<Meta>): map<string, Meta> {
    if xs == [] then m else PutMeta(PutMetas(m, xs[..|xs| - 1]), xs[|xs| - 1])
  }

  function ApplyMeta(m: map<string, Meta>, c: Change<Meta>): map<string, Meta> {
    match c.event
    case Delete => RemoveAll(m, c.items, PathOf)
    case Refresh | Myself => PutAll(map[], c.items, PathOf)
    case Create | Update => PutMetas(m, c.items)
  }

  ghost predicate FiledByPath(m: map<string, Meta>) {
    forall k :: k in m ==> m[k].path == k
  }

  ghost predicate OnePerId(m: map<string, Meta>) {
    forall j, k :: j in m && k in m && m[j].id == m[k].id ==> j == k
  }

  /** Item i is what a replace-all leaves at its path. */
  ghost predicate Survives(xs: seq<Meta>, i: int) {
    0 <= i < |xs| && forall j :: i < j < |xs| ==> xs[j].path != xs[i].path
  }

  /** No two surviving items of the batch share an id. */
  ghost predicate DistinctSurvivors(xs: seq<Meta>) {
    forall i, j :: Survives(xs, i) && Survives(xs, j) && xs[i].id == xs[j].id ==> i == j
  }

  lemma {:induction false} SurvivorIsFiled(xs: seq<Meta>, i: nat)
    requires Survives(xs, i)
    ensures xs[i].path in PutAll(map[], xs, PathOf) && PutAll(map[], xs, PathOf)[xs[i].path] == xs[i]
  {
    var n := |xs| - 1;
    if i < n {
      assert Survives(xs[..n], i);
      SurvivorIsFiled(xs[..n], i);
      assert xs[n].path != xs[i].path;
    }
  }

  lemma {:induction false} FiledSurvives(xs: seq<Meta>, k: string) returns (i: nat)
    requires k in PutAll(map[], xs, PathOf)
    ensures Survives(xs, i) && xs[i].path == k
  {
    var n := |xs| - 1;
    if xs[n].path == k {
      i := n;
    } else {
      i := FiledSurvives(xs[..n], k);
    }
  }

  /** A replace-all of metadata keeps ids unique exactly when the surviving items of its batch have distinct ids. */
  lemma RefreshOnePerId(m: map<string, Meta>, c: Change<Meta>)
    requires c.event == Refresh || c.event == Myself
    ensures OnePerId(ApplyMeta(m, c)) <==> DistinctSurvivors(c.items)
    ensures FiledByPath(ApplyMeta(m, c))
  {
    var xs := c.items;
    var r := PutAll(map[], xs, PathOf);
    forall k | k in r ensures r[k].path == k {
      var i := FiledSurvives(xs, k);
      SurvivorIsFiled(xs, i);
    }
    if DistinctSurvivors(xs) {
      forall j, k | j in r && k in r && r[j].id == r[k].id ensures j == k {
        var i := FiledSurvives(xs, j);
        var l := FiledSurvives(xs, k);
        SurvivorIsFiled(xs, i);
        SurvivorIsFiled(xs, l);
      }
    }
    if OnePerId(r) {
      forall i, j | Survives(xs, i) && Survives(xs, j) && xs[i].id == xs[j].id ensures i == j {
        SurvivorIsFiled(xs, i);
        SurvivorIsFiled(xs, j);
      }
    }
  }

  /** Filing a record leaves it as the only entry of its id and touches no other id off its path. */
  lemma PutMetaMoves(m: map<string, Meta>, x: Meta)
    requires FiledByPath(m)
    ensures var r := PutMeta(m, x);
            && FiledByPath(r) && r[x.path] == x
            && (forall k :: k in r && r[k].id == x.id ==> k == x.path)
            && (forall k :: k != x.path ==> (k in r <==> k in m && m[k].id != x.id))
            && (forall k :: k != x.path && k in r ==> r[k] == m[k])
            && (OnePerId(m) ==> OnePerId(r))
  {
  }

  /** Some item of the batch carries that id. */
  ghost predicate MovesId(xs: seq<Meta>, from: int, id: string) {
    exists j :: from <= j < |xs| && 0 <= j && xs[j].id == id
  }

  lemma MovesIdSnoc(xs: seq<Meta>, x: Meta, from: nat, id: string)
    requires from <= |xs|
    ensures MovesId(xs + [x], from, id) <==> MovesId(xs, from, id) || x.id == id
  {
    var ys := xs + [x];
    if MovesId(xs, from, id) {
      var j :| from <= j < |xs| && xs[j].id == id;
      assert ys[j].id == id;
    }
    assert ys[|xs|] == x;
  }

  lemma NamesSnoc(xs: seq<Meta>, x: Meta, k: string)
    ensures Names(xs + [x], PathOf, k) <==> Names(xs, PathOf, k) || x.path == k
  {
    var ys := xs + [x];
    if Names(xs, PathOf, k) {
      var j :| 0 <= j < |xs| && PathOf(xs[j]) == k;
      assert PathOf(ys[j]) == k;
    }
    assert ys[|xs|] == x;
  }

  /** A path that no item of the batch names keeps its entry unless an item moves the entry's id away. */
  lemma {:induction false} PutMetasElsewhere(m: map<string, Meta>, xs: seq<Meta>, k: string)
    requires FiledByPath(m) && !Names(xs, PathOf, k)
    ensures FiledByPath(PutMetas(m, xs))
    ensures k in PutMetas(m, xs) <==> k in m && !MovesId(xs, 0, m[k].id)
    ensures k in PutMetas(m, xs) ==> PutMetas(m, xs)[k] == m[k]
  {
    PutMetasFiled(m, xs);
    if xs != [] {
      var n := |xs| - 1;
      var ys, x := xs[..n], xs[n];
      assert xs == ys + [x];
      NamesSnoc(ys, x, k);
      PutMetasElsewhere(m, ys, k);
      PutMetaMoves(PutMetas(m, ys), x);
      if k in m { MovesIdSnoc(ys, x, 0, m[k].id); }
    }
  }

  lemma {:induction false} PutMetasFiled(m: map<string, Meta>, xs: seq<Meta>)
    requires FiledByPath(m)
    ensures FiledByPath(PutMetas(m, xs))
  {
    if xs != [] {
      PutMetasFiled(m, xs[..|xs| - 1]);
      PutMetaMoves(PutMetas(m, xs[..|xs| - 1]), xs[|xs| - 1]);
    }
  }

  /** The last item for a path stands there unless a later item moves its id away. */
  lemma {:induction false} PutMetasAt(m: map<string, Meta>, xs: seq<Meta>, i: nat, k: string)
    requires FiledByPath(m) && LastAt(xs, PathOf, i, k)
    ensures k in PutMetas(m, xs) <==> !MovesId(xs, i + 1, xs[i].id)
    ensures k in PutMetas(m, xs) ==> PutMetas(m, xs)[k] == xs[i]
  {
    var n := |xs| - 1;
    var ys, x := xs[..n], xs[n];
    assert xs == ys + [x];
    PutMetasFiled(m, ys);
    PutMetaMoves(PutMetas(m, ys), x);
    if i < n {
      assert LastAt(ys, PathOf, i, k);
      PutMetasAt(m, ys, i, k);
      MovesIdSnoc(ys, x, i + 1, xs[i].id);
    }
  }

  /**
   What an event does to the metadata at one path. A delete removes exactly the paths it names. A
   replace-all leaves at each path its last item for it. A create or update leaves at each path it
   names its last item for it, unless a later item moves that id away; every other path keeps its
   entry, unless an item moves the entry's id away.
   */
  lemma MetaEvent(m: map<string, Meta>, c: Change<Meta>, k: string)
    requires FiledByPath(m)
    ensures var r := ApplyMeta(m, c);
            match c.event
            case Delete =>
              (k in r <==> k in m && !Names(c.items, PathOf, k)) && (k in r ==> r[k] == m[k])
            case Refresh | Myself =>
              (k in r <==> Names(c.items, PathOf, k)) &&
              forall i :: LastAt(c.items, PathOf, i, k) ==> k in r && r[k] == c.items[i]
            case Create | Update =>
              && (forall i :: LastAt(c.items, PathOf, i, k) ==>
                    (k in r <==> !MovesId(c.items, i + 1, c.items[i].id)) && (k in r ==> r[k] == c.items[i]))
              && (!Names(c.items, PathOf, k) ==>
                    (k in r <==> k in m && !MovesId(c.items, 0, m[k].id)) && (k in r ==> r[k] == m[k]))
  {
    match c.event {
      case Delete =>
        RemoveAllShrinks(m, c.items, PathOf);
        assert Names(c.items, PathOf, k) <==> exists x :: x in c.items && PathOf(x) == k;
      case Refresh | Myself => PutAllFacts(map[], c.items, PathOf, k);
      case Create | Update =>
        forall i | LastAt(c.items, PathOf, i, k)
          ensures var r := ApplyMeta(m, c);
                  (k in r <==> !MovesId(c.items, i + 1, c.items[i].id)) && (k in r ==> r[k] == c.items[i])
        {
          PutMetasAt(m, c.items, i, k);
        }
        if !Names(c.items, PathOf, k) {
          PutMetasElsewhere(m, c.items, k);
        }
    }
  }

  /** A named path has a last item, so MetaEvent covers every path. */
  lemma {:induction false} NamedHasLast<T>(xs: seq<T>, key: T -> string, k: string) returns (i: nat)
    requires Names(xs, key, k)
    ensures LastAt(xs, key, i, k)
  {
    var n := |xs| - 1;
    if key(xs[n]) == k {
      i := n;
    } else {
      var j :| 0 <= j < |xs| && key(xs[j]) == k;
      assert key(xs[..n][j]) == k;
      i := NamedHasLast(xs[..n], key, k);
    }
  }

  lemma {:induction false} PutMetasKeeps(m: map<string, Meta>, xs: seq<Meta>)
    requires FiledByPath(m) && OnePerId(m)
    ensures FiledByPath(PutMetas(m, xs)) && OnePerId(PutMetas(m, xs))
  {
    if xs != [] {
      PutMetasKeeps(m, xs[..|xs| - 1]);
      PutMetaMoves(PutMetas(m, xs[..|xs| - 1]), xs[|xs| - 1]);
    }
  }

  lemma {:induction false} RemoveAllShrinks<T>(m: map<string, T>, xs: seq<T>, key: T -> string)
    ensures forall k :: k in RemoveAll(m, xs, key) <==> k in m && forall x :: x in xs ==> key(x) != k
    ensures forall k :: k in RemoveAll(m, xs, key) ==> RemoveAll(m, xs, key)[k] == m[k]
  {
    if xs != [] {
      RemoveAllShrinks(m, xs[..|xs| - 1], key);
      assert xs == xs[..|xs| - 1] + [xs[|xs| - 1]];
    }
  }

  lemma ApplyMetaKeeps(m: map<string, Meta>, c: Change<Meta>)
    requires FiledByPath(m) && OnePerId(m)
    requires c.event == Refresh || c.event == Myself ==> DistinctSurvivors(c.items)
    ensures FiledByPath(ApplyMeta(m, c)) && OnePerId(ApplyMeta(m, c))
  {
    match c.event {
      case Delete => RemoveAllShrinks(m, c.items, PathOf);
      case Refresh | Myself => RefreshOnePerId(m, c);
      case Create | Update => PutMetasKeeps(m, c.items);
    }
  }

  /** Whatever the batches hold, metadata stays filed by its own path, so MetaEvent applies to every event of a run. */
  lemma {:induction false} MetaRunFiled(remote: map<string, Meta>, events: seq<Change<Meta>>)
    requires FiledByPath(remote)
    ensures FiledByPath(Publish(ApplyMeta, EncodeMeta, remote, events))
    decreases |events|
  {
    if events != [] {
      var c := events[0];
      match c.event {
        case Delete => RemoveAllShrinks(remote, c.items, PathOf);
        case Refresh | Myself => RefreshOnePerId(remote, c);
        case Create | Update => PutMetasFiled(remote, c.items);
      }
      MetaRunFiled(EncodeMeta(ApplyMeta(remote, c)), events[1..]);
    }
  }

  /** In every reachable store the metadata is filed by its own path, with one entry per id. */
  lemma {:induction false} MetaRunKeeps(remote: map<string, Meta>, events: seq<Change<Meta>>)
    requires FiledByPath(remote) && OnePerId(remote)
    requires forall c :: c in events && (c.event == Refresh || c.event == Myself) ==> DistinctSurvivors(c.items)
    ensures var r := Publish(ApplyMeta, EncodeMeta, remote, events); FiledByPath(r) && OnePerId(r)
    decreases |events|
  {
    if events != [] {
      ApplyMetaKeeps(remote, events[0]);
      MetaRunKeeps(EncodeMeta(ApplyMeta(remote, events[0])), events[1..]);
    }
  }
}
