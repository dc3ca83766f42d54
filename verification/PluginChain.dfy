/**
 The plugin chain: one index shared by every call of a request. A plugin may call the chain any
 number of times, and its answers may depend on the exchange, whose states are the type X.
 */
module PluginChain {
  import opened Options
  import opened StableSort

  /**
   `next(x, k)` is what the plugin does after k calls of the chain, the last of which left x: call
   it again on an exchange, or stop. `limit` bounds the calls of one execution; `finish` is what
   the plugin does to the exchange after its last call.
   */
  datatype Plugin<!X> = Plugin(
    order: int,
    skip: X -> bool,
    limit: nat,
    next: (X, nat) -> Option<X>,
    finish: X -> X)

  /** The plugin taken at an index, on the exchange it was offered. */
  datatype Visit<X> = Ran(index: nat, x: X) | Skipped(index: nat, x: X)

  datatype Outcome<X> = Outcome(index: nat, x: X, visits: seq<Visit<X>>)

  predicate Calls<X>(p: Plugin<X>, x: X, k: nat) {
    k < p.limit && p.next(x, k).Some?
  }

  /** A call of the chain whose index is i. */
  function Exec<X>(ps: seq<Plugin<X>>, i: nat, x: X): (r: Outcome<X>)
    requires i <= |ps|
    ensures i <= r.index <= |ps|
    ensures i < |ps| ==> i < r.index
    decreases |ps| - i, 0
  {
    if i == |ps| then Outcome(i, x, [])
    else if ps[i].skip(x) then
      var r := Exec(ps, i + 1, x);
      r.(visits := [Skipped(i, x)] + r.visits)
    else
      var r := Body(ps, i + 1, ps[i], 0, x);
      r.(visits := [Ran(i, x)] + r.visits)
  }

  /** Plugin p from its k-th call on. */
  function Body<X>(ps: seq<Plugin<X>>, i: nat, p: Plugin<X>, k: nat, x: X): (r: Outcome<X>)
    requires i <= |ps|
    ensures i <= r.index <= |ps|
    decreases |ps| - i, 1 + if k < p.limit then p.limit - k else 0
  {
    if Calls(p, x, k) then
      var a := Exec(ps, i, p.next(x, k).value);
      var b := Body(ps, a.index, p, k + 1, a.x);
      b.(visits := a.visits + b.visits)
    else Outcome(i, p.finish(x), [])
  }

  /** The visits take the plugins from i up to the new index, one by one, each by its own skip answer. */
  ghost predicate InTurn<X>(ps: seq<Plugin<X>>, i: nat, r: Outcome<X>) {
    i <= r.index <= |ps| && |r.visits| == r.index - i &&
    forall k :: 0 <= k < |r.visits| ==> VisitOk(ps, i + k, r.visits[k])
  }

  ghost predicate VisitOk<X>(ps: seq<Plugin<X>>, i: nat, v: Visit<X>) {
    i < |ps| && v.index == i && (v.Skipped? <==> ps[i].skip(v.x))
  }

  lemma InTurnAfter<X>(ps: seq<Plugin<X>>, i: nat, v: Visit<X>, r: Outcome<X>)
    requires VisitOk(ps, i, v) && InTurn(ps, i + 1, r)
    ensures InTurn(ps, i, r.(visits := [v] + r.visits))
  {
    var s := r.(visits := [v] + r.visits);
    forall k | 0 <= k < |s.visits| ensures VisitOk(ps, i + k, s.visits[k]) {
      if k > 0 { assert VisitOk(ps, i + 1 + (k - 1), r.visits[k - 1]); }
    }
  }

  lemma InTurnJoin<X>(ps: seq<Plugin<X>>, i: nat, a: Outcome<X>, b: Outcome<X>)
    requires InTurn(ps, i, a) && InTurn(ps, a.index, b)
    ensures InTurn(ps, i, b.(visits := a.visits + b.visits))
  {
    var s := b.(visits := a.visits + b.visits);
    forall k | 0 <= k < |s.visits| ensures VisitOk(ps, i + k, s.visits[k]) {
      if k >= |a.visits| {
        var j := k - |a.visits|;
        assert VisitOk(ps, a.index + j, b.visits[j]);
      }
    }
  }

  /** However the plugins behave, they are visited one by one in the order of the list. */
  lemma {:induction false} ExecInTurn<X>(ps: seq<Plugin<X>>, i: nat, x: X)
    requires i <= |ps|
    ensures InTurn(ps, i, Exec(ps, i, x))
    decreases |ps| - i, 0
  {
    if i < |ps| {
      if ps[i].skip(x) {
        ExecInTurn(ps, i + 1, x);
        InTurnAfter(ps, i, Skipped(i, x), Exec(ps, i + 1, x));
      } else {
        BodyInTurn(ps, i + 1, ps[i], 0, x);
        InTurnAfter(ps, i, Ran(i, x), Body(ps, i + 1, ps[i], 0, x));
      }
    }
  }

  lemma {:induction false} BodyInTurn<X>(ps: seq<Plugin<X>>, i: nat, p: Plugin<X>, k: nat, x: X)
    requires i <= |ps|
    ensures InTurn(ps, i, Body(ps, i, p, k, x))
    decreases |ps| - i, 1 + if k < p.limit then p.limit - k else 0
  {
    if Calls(p, x, k) {
      var a := Exec(ps, i, p.next(x, k).value);
      ExecInTurn(ps, i, p.next(x, k).value);
      BodyInTurn(ps, a.index, p, k + 1, a.x);
      InTurnJoin(ps, i, a, Body(ps, a.index, p, k + 1, a.x));
    }
  }

  /** The indices of the plugins that ran. */
  function Runs<X>(vs: seq<Visit<X>>): seq<nat> {
    if vs == [] then []
    else (if vs[0].Ran? then [vs[0].index] else []) + Runs(vs[1..])
  }

  ghost predicate Increasing(s: seq<nat>) {
    forall a, b :: 0 <= a < b < |s| ==> s[a] < s[b]
  }

  ghost predicate RanAt<X>(vs: seq<Visit<X>>, i: nat, n: nat) {
    i <= n < i + |vs| && vs[n - i].Ran?
  }

  lemma {:induction false} RunsAre<X>(vs: seq<Visit<X>>, i: nat, n: nat)
    requires forall k :: 0 <= k < |vs| ==> vs[k].index == i + k
    ensures n in Runs(vs) <==> RanAt(vs, i, n)
  {
    if vs != [] {
      RunsAre(vs[1..], i + 1, n);
      if n > i {
        assert RanAt(vs, i, n) <==> RanAt(vs[1..], i + 1, n);
      }
    }
  }

  lemma {:induction false} RunsIncrease<X>(vs: seq<Visit<X>>, i: nat)
    requires forall k :: 0 <= k < |vs| ==> vs[k].index == i + k
    ensures Increasing(Runs(vs))
  {
    if vs != [] {
      var t := Runs(vs[1..]);
      RunsIncrease(vs[1..], i + 1);
      forall b | 0 <= b < |t| ensures i < t[b] {
        assert t[b] in t;
        RunsAre(vs[1..], i + 1, t[b]);
      }
    }
  }

  /** The plugins in the order in which the configuration hands them to the handler. */
  function Configured<X>(ps: seq<Plugin<X>>): seq<Plugin<X>> {
    Sort(ps, (p: Plugin<X>) => p.order)
  }

  /** handle: a new chain for the request. */
  function Handle<X>(ps: seq<Plugin<X>>, x: X): Outcome<X> {
    Exec(Configured(ps), 0, x)
  }

  /**
   In every request the indices of the executed plugins strictly increase, and a plugin below the
   final index fails to run exactly if it asked to be skipped.
   */
  lemma ExecutedOnce<X>(ps: seq<Plugin<X>>, x: X)
    ensures var qs, r := Configured(ps), Handle(ps, x);
            r.index <= |qs| && |r.visits| == r.index && Increasing(Runs(r.visits)) &&
            forall n: nat :: n in Runs(r.visits) <==> n < r.index && !qs[n].skip(r.visits[n].x)
  {
    var qs, r := Configured(ps), Handle(ps, x);
    ExecInTurn(qs, 0, x);
    forall k | 0 <= k < |r.visits| ensures VisitOk(qs, k, r.visits[k]) {
      assert VisitOk(qs, 0 + k, r.visits[k]);
    }
    RunsIncrease(r.visits, 0);
    forall n: nat ensures n in Runs(r.visits) <==> n < r.index && !qs[n].skip(r.visits[n].x) {
      RunsAre(r.visits, 0, n);
      if n < r.index { assert VisitOk(qs, n, r.visits[n]); }
    }
  }

  /** The orders of the executed plugins do not decrease. */
  lemma ExecutedInOrder<X>(ps: seq<Plugin<X>>, x: X, a: nat, b: nat)
    requires a < b < |Runs(Handle(ps, x).visits)|
    ensures var qs, t := Configured(ps), Runs(Handle(ps, x).visits);
            t[a] < t[b] < |qs| && qs[t[a]].order <= qs[t[b]].order
  {
    var t := Runs(Handle(ps, x).visits);
    ExecutedOnce(ps, x);
    assert t[a] in t && t[b] in t;
    SortFacts(ps, (p: Plugin<X>) => p.order);
  }

  // ---------- How far the chain goes ----------

  /** The plugin of the visit ran and never called the chain. */
  ghost predicate Stopped<X>(ps: seq<Plugin<X>>, v: Visit<X>) {
    v.index < |ps| && v.Ran? && !Calls(ps[v.index], v.x, 0)
  }

  /** A call of the chain that does not use up the plugins ended at a plugin that did not call on. */
  lemma {:induction false} StopsOnlyAtPlugin<X>(ps: seq<Plugin<X>>, i: nat, x: X)
    requires i < |ps| && Exec(ps, i, x).index < |ps|
    ensures Exec(ps, i, x).visits != [] && Stopped(ps, Exec(ps, i, x).visits[|Exec(ps, i, x).visits| - 1])
    decreases |ps| - i, 0
  {
    if ps[i].skip(x) {
      assert i + 1 < |ps|;
      StopsOnlyAtPlugin(ps, i + 1, x);
    } else if Calls(ps[i], x, 0) {
      BodyStops(ps, i + 1, ps[i], 0, x);
    }
  }

  lemma {:induction false} BodyStops<X>(ps: seq<Plugin<X>>, i: nat, p: Plugin<X>, k: nat, x: X)
    requires i <= |ps| && Body(ps, i, p, k, x).index < |ps| && Calls(p, x, k)
    ensures Body(ps, i, p, k, x).visits != []
    ensures Stopped(ps, Body(ps, i, p, k, x).visits[|Body(ps, i, p, k, x).visits| - 1])
    decreases |ps| - i, 1 + if k < p.limit then p.limit - k else 0
  {
    var a := Exec(ps, i, p.next(x, k).value);
    var b := Body(ps, a.index, p, k + 1, a.x);
    StopsOnlyAtPlugin(ps, i, p.next(x, k).value);
    if Calls(p, a.x, k + 1) {
      BodyStops(ps, a.index, p, k + 1, a.x);
    }
  }

  /** If every plugin that runs calls the chain at least once, every plugin is visited. */
  lemma AllVisited<X>(ps: seq<Plugin<X>>, i: nat, x: X)
    requires i <= |ps|
    requires forall n, y :: i <= n < |ps| && !ps[n].skip(y) ==> Calls(ps[n], y, 0)
    ensures Exec(ps, i, x).index == |ps|
  {
    var r := Exec(ps, i, x);
    ExecInTurn(ps, i, x);
    if r.visits != [] {
      var k := |r.visits| - 1;
      assert VisitOk(ps, i + k, r.visits[k]);
      CalledOn(ps, i + k, r.visits[k]);
    }
    if r.index < |ps| {
      StopsOnlyAtPlugin(ps, i, x);
    }
  }

  lemma CalledOn<X>(ps: seq<Plugin<X>>, n: nat, v: Visit<X>)
    requires VisitOk(ps, n, v) && forall y :: !ps[n].skip(y) ==> Calls(ps[n], y, 0)
    ensures !Stopped(ps, v)
  {
  }

  /** A request all of whose plugins skip comes back as it was. */
  lemma {:induction false} AllSkip<X>(ps: seq<Plugin<X>>, i: nat, x: X)
    requires i <= |ps| && forall n :: i <= n < |ps| ==> ps[n].skip(x)
    ensures Exec(ps, i, x).x == x && Exec(ps, i, x).index == |ps|
    decreases |ps| - i
  {
    if i < |ps| {
      AllSkip(ps, i + 1, x);
    }
  }

  // ---------- DefaultShenyuPluginChain ----------

  class Chain<!X> {
    var index: nat
    const plugins: seq<Plugin<X>>
    ghost var visits: seq<Visit<X>>

    constructor (plugins: seq<Plugin<X>>)
      ensures this.plugins == plugins && index == 0 && visits == []
    {
      this.plugins := plugins;
      index := 0;
      visits := [];
    }

    method Execute(x: X) returns (y: X)
      requires index <= |plugins|
      modifies this
      ensures index <= |plugins| && old(visits) <= visits
      ensures Exec(plugins, old(index), x) == Outcome(index, y, visits[|old(visits)|..])
      decreases |plugins| - index, 0
    {
      y := x;
      if index < |plugins| {
        var plugin := plugins[index];
        index := index + 1;
        if plugin.skip(x) {
          visits := visits + [Skipped(index - 1, x)];
          y := Execute(x);
        } else {
          visits := visits + [Ran(index - 1, x)];
          y := RunPlugin(plugin, 0, x);
        }
      }
    }

    /** plugin.execute(exchange, this), from the plugin's k-th call on. */
    method RunPlugin(p: Plugin<X>, k: nat, x: X) returns (y: X)
      requires index <= |plugins|
      modifies this
      ensures index <= |plugins| && old(visits) <= visits
      ensures Body(plugins, old(index), p, k, x) == Outcome(index, y, visits[|old(visits)|..])
      decreases |plugins| - index, 1 + if k < p.limit then p.limit - k else 0
    {
      if Calls(p, x, k) {
        y := Execute(p.next(x, k).value);
        y := RunPlugin(p, k + 1, y);
      } else {
        y := p.finish(x);
      }
    }
  }

  /** ShenyuWebHandler.handle over the configured plugins. */
  method HandleRequest<X>(ps: seq<Plugin<X>>, x: X) returns (y: X)
    ensures y == Handle(ps, x).x
    ensures (forall p :: p in ps ==> p.skip(x)) ==> y == x
  {
    if forall p :: p in ps ==> p.skip(x) {
      SortFacts(ps, (p: Plugin<X>) => p.order);
      AllSkip(Configured(ps), 0, x);
    }
    var chain := new Chain(Configured(ps));
    y := chain.Execute(x);
  }
}
