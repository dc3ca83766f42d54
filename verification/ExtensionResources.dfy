/**
 Loading the extension table of one interface from its resource files. A class path resolves to a
 class, or to one of the three reasons for which loading throws. Any throw leaves no table at all.
 */
module ExtensionResources {
  import opened Options
  import opened Text
  import opened ExtensionLoader

  datatype Resolved = NotFound | NotSubtype | NoJoin | Usable(c: Class)

  datatype Resource = Unreadable | Readable(entries: seq<(Name, string)>)

  /** What a resource file asks of the table, one entry at a time; an unreadable file asks the impossible. */
  datatype Entry = Broken | Pair(name: Name, path: string)

  type Resolver = string -> Resolved
  type Table = map<Name, Class>

  function EntriesOf(r: Resource): seq<Entry> {
    match r
    case Unreadable => [Broken]
    case Readable(es) => seq(|es|, i requires 0 <= i < |es| => Pair(es[i].0, es[i].1))
  }

  function Flatten(rs: seq<Resource>): seq<Entry> {
    if rs == [] then [] else Flatten(rs[..|rs| - 1]) + EntriesOf(rs[|rs| - 1])
  }

  predicate Ignored(e: Entry) { e.Pair? && (Blank(e.name) || Blank(e.path)) }

  /** loadClass on one entry: None stands for a throw. */
  function LoadEntry(t: Table, e: Entry, resolve: Resolver): Option<Table> {
    if Ignored(e) then Some(t)
    else if e.Broken? || !resolve(e.path).Usable? then None
    else if e.name !in t then Some(t[e.name := resolve(e.path).c])
    else if t[e.name] == resolve(e.path).c then Some(t)
    else None
  }

  function LoadEntries(es: seq<Entry>, resolve: Resolver): Option<Table> {
    if es == [] then Some(map[])
    else
      var t := LoadEntries(es[..|es| - 1], resolve);
      if t.None? then None else LoadEntry(t.value, es[|es| - 1], resolve)
  }

  // ---------- What the table means ----------

  ghost predicate Binds(e: Entry, n: Name, c: Class, resolve: Resolver) {
    e.Pair? && !Ignored(e) && e.name == n && resolve(e.path) == Usable(c)
  }

  ghost predicate Acceptable(e: Entry, resolve: Resolver) {
    e.Pair? && (Ignored(e) || resolve(e.path).Usable?)
  }

  /** Two entries give one name to different classes. */
  ghost predicate Clash(e: Entry, f: Entry, resolve: Resolver) {
    e.Pair? && f.Pair? && !Ignored(e) && !Ignored(f) && e.name == f.name && resolve(e.path) != resolve(f.path)
  }

  /** Every entry resolves and no name is bound to two classes. */
  ghost predicate Consistent(es: seq<Entry>, resolve: Resolver) {
    && (forall e :: e in es ==> Acceptable(e, resolve))
    && (forall e, f :: e in es && f in es ==> !Clash(e, f, resolve))
  }

  ghost predicate Tabulates(t: Table, es: seq<Entry>, resolve: Resolver) {
    forall n, c :: Has(t, n, c) <==> SomeBinds(es, n, c, resolve)
  }

  ghost predicate Has(t: Table, n: Name, c: Class) { n in t && t[n] == c }

  ghost predicate SomeBinds(es: seq<Entry>, n: Name, c: Class, resolve: Resolver) {
    exists e :: e in es && Binds(e, n, c, resolve)
  }

  lemma BindsLast(es: seq<Entry>, e: Entry, n: Name, c: Class, resolve: Resolver)
    ensures SomeBinds(es + [e], n, c, resolve) <==> SomeBinds(es, n, c, resolve) || Binds(e, n, c, resolve)
  {
    assert e in es + [e];
    assert forall f :: f in es ==> f in es + [e];
  }

  /** An entry that loads adds exactly what it binds. */
  lemma EntryTabulates(t: Table, e: Entry, n: Name, c: Class, resolve: Resolver)
    requires LoadEntry(t, e, resolve).Some?
    ensures Has(LoadEntry(t, e, resolve).value, n, c) <==> Has(t, n, c) || Binds(e, n, c, resolve)
    ensures Acceptable(e, resolve)
  {
  }

  lemma {:induction false} LoadedTabulates(es: seq<Entry>, n: Name, c: Class, resolve: Resolver)
    requires LoadEntries(es, resolve).Some?
    ensures Has(LoadEntries(es, resolve).value, n, c) <==> SomeBinds(es, n, c, resolve)
  {
    if es != [] {
      var k := |es| - 1;
      LoadedTabulates(es[..k], n, c, resolve);
      EntryTabulates(LoadEntries(es[..k], resolve).value, es[k], n, c, resolve);
      assert es == es[..k] + [es[k]];
      BindsLast(es[..k], es[k], n, c, resolve);
    }
  }

  lemma {:induction false} LoadedAcceptable(es: seq<Entry>, e: Entry, resolve: Resolver)
    requires LoadEntries(es, resolve).Some? && e in es
    ensures Acceptable(e, resolve)
  {
    var k := |es| - 1;
    if e in es[..k] {
      LoadedAcceptable(es[..k], e, resolve);
    } else {
      EntryTabulates(LoadEntries(es[..k], resolve).value, es[k], "", 0, resolve);
    }
  }

  lemma LoadedIsTable(es: seq<Entry>, resolve: Resolver)
    requires LoadEntries(es, resolve).Some?
    ensures Tabulates(LoadEntries(es, resolve).value, es, resolve)
    ensures forall e :: e in es ==> Acceptable(e, resolve)
  {
    var t := LoadEntries(es, resolve).value;
    forall n, c ensures Has(t, n, c) <==> SomeBinds(es, n, c, resolve) {
      LoadedTabulates(es, n, c, resolve);
    }
    forall e | e in es ensures Acceptable(e, resolve) {
      LoadedAcceptable(es, e, resolve);
    }
  }

  /** A table tabulates its entries only if no name is bound twice. */
  lemma TabulatedConsistent(t: Table, es: seq<Entry>, resolve: Resolver)
    requires Tabulates(t, es, resolve) && forall e :: e in es ==> Acceptable(e, resolve)
    ensures Consistent(es, resolve)
  {
    forall e, f | e in es && f in es ensures !Clash(e, f, resolve) {
      assert Acceptable(e, resolve) && Acceptable(f, resolve);
      if !Ignored(e) && !Ignored(f) && e.name == f.name {
        assert Binds(e, e.name, resolve(e.path).c, resolve) && Binds(f, e.name, resolve(f.path).c, resolve);
        assert Has(t, e.name, resolve(e.path).c) && Has(t, e.name, resolve(f.path).c);
      }
    }
  }

  lemma {:induction false} ConsistentLoads(es: seq<Entry>, resolve: Resolver)
    requires Consistent(es, resolve)
    ensures LoadEntries(es, resolve).Some?
  {
    if es != [] {
      var k := |es| - 1;
      assert forall e :: e in es[..k] ==> e in es;
      ConsistentLoads(es[..k], resolve);
      LoadedIsTable(es[..k], resolve);
      var t, last := LoadEntries(es[..k], resolve).value, es[k];
      assert last in es;
      if !Ignored(last) && last.name in t {
        var c := t[last.name];
        assert Has(t, last.name, c);
        var e :| e in es[..k] && Binds(e, last.name, c, resolve);
        assert e in es && !Clash(e, last, resolve);
      }
    }
  }

  /** Loading succeeds exactly on consistent entries, and then yields the table they spell out. */
  lemma LoadCorrect(es: seq<Entry>, resolve: Resolver)
    ensures LoadEntries(es, resolve).Some? <==> Consistent(es, resolve)
    ensures LoadEntries(es, resolve).Some? ==> Tabulates(LoadEntries(es, resolve).value, es, resolve)
  {
    if LoadEntries(es, resolve).Some? {
      LoadedIsTable(es, resolve);
      TabulatedConsistent(LoadEntries(es, resolve).value, es, resolve);
    }
    if Consistent(es, resolve) {
      ConsistentLoads(es, resolve);
    }
  }

  lemma TableUnique(t: Table, u: Table, es: seq<Entry>, resolve: Resolver)
    requires Tabulates(t, es, resolve) && Tabulates(u, es, resolve)
    ensures t == u
  {
    forall n | n in t ensures n in u && u[n] == t[n] {
      assert Has(t, n, t[n]) && Has(u, n, t[n]);
    }
    forall n | n in u ensures n in t {
      assert Has(u, n, u[n]) && Has(t, n, u[n]);
    }
  }

  /**
   The order of resources, of entries within them, and repeated entries do not matter: two sets of
   resources with the same entries both fail, or both give the same table.
   */
  lemma OrderDoesNotMatter(rs: seq<Resource>, qs: seq<Resource>, resolve: Resolver)
    requires forall e :: e in Flatten(rs) <==> e in Flatten(qs)
    ensures LoadEntries(Flatten(rs), resolve) == LoadEntries(Flatten(qs), resolve)
  {
    var a, b := Flatten(rs), Flatten(qs);
    LoadCorrect(a, resolve);
    LoadCorrect(b, resolve);
    assert Consistent(a, resolve) <==> Consistent(b, resolve);
    if Consistent(a, resolve) {
      var u := LoadEntries(b, resolve).value;
      forall n, c ensures Has(u, n, c) <==> SomeBinds(a, n, c, resolve) {
        assert Has(u, n, c) <==> SomeBinds(b, n, c, resolve);
      }
      TableUnique(LoadEntries(a, resolve).value, u, a, resolve);
    }
  }

  // ---------- In terms of the files ----------

  /** A readable file has the line n = path. */
  ghost predicate Line(r: Resource, n: Name, path: string) {
    r.Readable? && exists j :: 0 <= j < |r.entries| && r.entries[j] == (n, path)
  }

  /** Some file has the line n = path, with neither side blank. */
  ghost predicate Mentions(rs: seq<Resource>, n: Name, path: string) {
    !Blank(n) && !Blank(path) && exists i :: 0 <= i < |rs| && Line(rs[i], n, path)
  }

  ghost predicate AllReadable(rs: seq<Resource>) { forall r :: r in rs ==> r.Readable? }

  /** Every mentioned path resolves, and each name has one class. */
  ghost predicate WellFormed(rs: seq<Resource>, resolve: Resolver) {
    && (forall n, p :: Mentions(rs, n, p) ==> resolve(p).Usable?)
    && (forall n, p, q :: Mentions(rs, n, p) && Mentions(rs, n, q) ==> resolve(p) == resolve(q))
  }

  lemma LineEntry(r: Resource, n: Name, path: string)
    ensures Pair(n, path) in EntriesOf(r) <==> Line(r, n, path)
    ensures Broken in EntriesOf(r) <==> r.Unreadable?
  {
    if Line(r, n, path) {
      var j :| 0 <= j < |r.entries| && r.entries[j] == (n, path);
      assert EntriesOf(r)[j] == Pair(n, path);
    }
  }

  lemma {:induction false} FlattenHas(rs: seq<Resource>, e: Entry)
    ensures e in Flatten(rs) <==> exists i :: 0 <= i < |rs| && e in EntriesOf(rs[i])
  {
    if rs != [] {
      var k := |rs| - 1;
      FlattenHas(rs[..k], e);
      assert forall i :: 0 <= i < k ==> rs[..k][i] == rs[i];
    }
  }

  lemma MentionsEntry(rs: seq<Resource>, n: Name, path: string)
    ensures Mentions(rs, n, path) <==> Pair(n, path) in Flatten(rs) && !Ignored(Pair(n, path))
    ensures Broken in Flatten(rs) <==> !AllReadable(rs)
  {
    FlattenHas(rs, Pair(n, path));
    FlattenHas(rs, Broken);
    forall i | 0 <= i < |rs|
      ensures Pair(n, path) in EntriesOf(rs[i]) <==> Line(rs[i], n, path)
      ensures Broken in EntriesOf(rs[i]) <==> rs[i].Unreadable?
    {
      LineEntry(rs[i], n, path);
    }
  }

  lemma ConsistentIs(rs: seq<Resource>, resolve: Resolver)
    ensures Consistent(Flatten(rs), resolve) <==> AllReadable(rs) && WellFormed(rs, resolve)
  {
    var es := Flatten(rs);
    forall n, p ensures Mentions(rs, n, p) <==> Pair(n, p) in es && !Ignored(Pair(n, p)) {
      MentionsEntry(rs, n, p);
    }
    MentionsEntry(rs, "", "");
    if Consistent(es, resolve) {
      assert Broken in es ==> Acceptable(Broken, resolve);
      forall n, p | Mentions(rs, n, p) ensures resolve(p).Usable? {
        assert Acceptable(Pair(n, p), resolve);
      }
      forall n, p, q | Mentions(rs, n, p) && Mentions(rs, n, q) ensures resolve(p) == resolve(q) {
        assert !Clash(Pair(n, p), Pair(n, q), resolve);
      }
    }
    if AllReadable(rs) && WellFormed(rs, resolve) {
      forall e | e in es ensures Acceptable(e, resolve) {
        assert e.Pair? && (Mentions(rs, e.name, e.path) || Ignored(e));
      }
      forall e, f | e in es && f in es ensures !Clash(e, f, resolve) {
        if e.Pair? && f.Pair? && !Ignored(e) && !Ignored(f) {
          assert Mentions(rs, e.name, e.path) && Mentions(rs, f.name, f.path);
        }
      }
    }
  }

  /**
   Loading succeeds exactly if every file can be read, every path given to a name resolves and no
   name is given two classes, lines with a blank side aside; and then each name has the class that
   some line gives it.
   */
  lemma FilesCorrect(rs: seq<Resource>, resolve: Resolver)
    ensures LoadEntries(Flatten(rs), resolve).Some? <==> AllReadable(rs) && WellFormed(rs, resolve)
    ensures forall n, c :: LoadEntries(Flatten(rs), resolve).Some? ==>
              (Has(LoadEntries(Flatten(rs), resolve).value, n, c) <==>
               exists p :: Mentions(rs, n, p) && resolve(p) == Usable(c))
  {
    var es := Flatten(rs);
    LoadCorrect(es, resolve);
    ConsistentIs(rs, resolve);
    forall n, c ensures SomeBinds(es, n, c, resolve) <==> exists p :: Mentions(rs, n, p) && resolve(p) == Usable(c) {
      if e :| e in es && Binds(e, n, c, resolve) {
        MentionsEntry(rs, n, e.path);
        assert e == Pair(n, e.path);
      }
      if p :| Mentions(rs, n, p) && resolve(p) == Usable(c) {
        MentionsEntry(rs, n, p);
        assert Binds(Pair(n, p), n, c, resolve);
      }
    }
  }

  // ---------- The loops ----------

  /**
   loadDirectory over the resources, loadResources over the entries of each. None for `urls` stands
   for a listing that is absent or fails, which is logged and leaves the table empty.
   */
  method LoadDirectory(urls: Option<seq<Resource>>, resolve: Resolver) returns (r: Option<Table>)
    ensures urls.None? ==> r == Some(map[])
    ensures urls.Some? ==> r == LoadEntries(Flatten(urls.value), resolve)
    ensures urls.Some? ==> (r.Some? <==> Consistent(Flatten(urls.value), resolve))
    ensures urls.Some? && r.Some? ==> Tabulates(r.value, Flatten(urls.value), resolve)
  {
    if urls.None? {
      return Some(map[]);
    }
    var rs := urls.value;
    LoadCorrect(Flatten(rs), resolve);
    r := LoadAll(rs, resolve);
  }

  method LoadAll(rs: seq<Resource>, resolve: Resolver) returns (r: Option<Table>)
    ensures r == LoadEntries(Flatten(rs), resolve)
  {
    r := Some(map[]);
    var i := 0;
    while i < |rs| && r.Some?
      invariant 0 <= i <= |rs|
      invariant LoadEntries(Flatten(rs[..i]), resolve) == r
    {
      assert rs[..i + 1][..i] == rs[..i];
      r := LoadResources(r.value, rs[i], resolve, Flatten(rs[..i]));
      i := i + 1;
    }
    if r.None? {
      FailedPrefix(rs, i, resolve);
    } else {
      assert rs[..i] == rs;
    }
  }

  method LoadResources(classes: Table, res: Resource, resolve: Resolver, ghost before: seq<Entry>) returns (r: Option<Table>)
    requires LoadEntries(before, resolve) == Some(classes)
    ensures r == LoadEntries(before + EntriesOf(res), resolve)
  {
    var es := EntriesOf(res);
    r := Some(classes);
    var j := 0;
    assert before + es[..0] == before;
    while j < |es| && r.Some?
      invariant 0 <= j <= |es|
      invariant LoadEntries(before + es[..j], resolve) == r
    {
      LoadSnoc(before, es, j, resolve);
      r := LoadEntry(r.value, es[j], resolve);
      j := j + 1;
    }
    LoadEnds(before, es, j, resolve);
  }

  lemma LoadEnds(before: seq<Entry>, es: seq<Entry>, j: nat, resolve: Resolver)
    requires j <= |es| && (LoadEntries(before + es[..j], resolve).None? || j == |es|)
    ensures LoadEntries(before + es, resolve) == LoadEntries(before + es[..j], resolve)
  {
    assert before + es == (before + es[..j]) + es[j..];
    if j == |es| {
      assert es[..j] == es;
    } else {
      FailureIsFinal(before + es[..j], es[j..], resolve);
    }
  }

  lemma LoadSnoc(before: seq<Entry>, es: seq<Entry>, j: nat, resolve: Resolver)
    requires j < |es| && LoadEntries(before + es[..j], resolve).Some?
    ensures LoadEntries(before + es[..j + 1], resolve) ==
            LoadEntry(LoadEntries(before + es[..j], resolve).value, es[j], resolve)
  {
    assert (before + es[..j + 1])[..|before| + j] == before + es[..j];
  }

  lemma {:induction false} FailureIsFinal(a: seq<Entry>, b: seq<Entry>, resolve: Resolver)
    requires LoadEntries(a, resolve).None?
    ensures LoadEntries(a + b, resolve).None?
  {
    if b == [] {
      assert a + b == a;
    } else {
      FailureIsFinal(a, b[..|b| - 1], resolve);
      assert (a + b)[..|a + b| - 1] == a + b[..|b| - 1];
    }
  }

  lemma {:induction false} FailedPrefix(rs: seq<Resource>, i: nat, resolve: Resolver)
    requires i <= |rs| && LoadEntries(Flatten(rs[..i]), resolve).None?
    ensures LoadEntries(Flatten(rs), resolve).None?
    decreases |rs| - i
  {
    if i == |rs| {
      assert rs[..i] == rs;
    } else {
      assert rs[..i + 1][..i] == rs[..i];
      FailureIsFinal(Flatten(rs[..i]), EntriesOf(rs[i]), resolve);
      FailedPrefix(rs, i + 1, resolve);
    }
  }
}
