/**
 What the plugin chain does to the exchange: who sees which exchange, that plugins that do not run
 leave no trace, and that the chain is the nesting of its plugins.
 */
module PluginExchange {
  import opened Options
  import opened StableSort
  import opened PluginChain

  // ---------- Who sees which exchange ----------

  /** A call of an unfinished chain first offers the exchange it was called with. */
  lemma FirstSees<X>(ps: seq<Plugin<X>>, i: nat, x: X)
    requires i < |ps|
    ensures Exec(ps, i, x).visits != [] && Exec(ps, i, x).visits[0].index == i && Exec(ps, i, x).visits[0].x == x
  {
  }

  /** A running plugin that calls on offers the chain exactly the exchange it chose. */
  lemma CallOffers<X>(ps: seq<Plugin<X>>, i: nat, p: Plugin<X>, k: nat, x: X)
    requires i < |ps| && Calls(p, x, k)
    ensures var r := Body(ps, i, p, k, x);
            r.visits != [] && r.visits[0].index == i && r.visits[0].x == p.next(x, k).value
  {
    FirstSees(ps, i, p.next(x, k).value);
  }

  /** A skipped plugin passes on the exchange it was offered, and the last plugin is skipped only at the end. */
  ghost predicate PassesOn<X>(ps: seq<Plugin<X>>, r: Outcome<X>) {
    && (forall k :: 0 <= k < |r.visits| - 1 && r.visits[k].Skipped? ==> r.visits[k + 1].x == r.visits[k].x)
    && (r.visits != [] && r.visits[|r.visits| - 1].Skipped? ==> r.index == |ps|)
  }

  lemma PassesAfter<X>(ps: seq<Plugin<X>>, v: Visit<X>, r: Outcome<X>)
    requires PassesOn(ps, r)
    requires v.Skipped? ==> if r.visits == [] then r.index == |ps| else r.visits[0].x == v.x
    ensures PassesOn(ps, r.(visits := [v] + r.visits))
  {
    var s := r.(visits := [v] + r.visits);
    forall k | 0 <= k < |s.visits| - 1 && s.visits[k].Skipped? ensures s.visits[k + 1].x == s.visits[k].x {
      assert k > 0 ==> s.visits[k] == r.visits[k - 1];
    }
  }

  lemma PassesJoin<X>(ps: seq<Plugin<X>>, a: Outcome<X>, b: Outcome<X>)
    requires PassesOn(ps, a) && PassesOn(ps, b) && a.index <= b.index <= |ps| && |b.visits| == b.index - a.index
    ensures PassesOn(ps, b.(visits := a.visits + b.visits))
  {
    var s := b.(visits := a.visits + b.visits);
    forall k | 0 <= k < |s.visits| - 1 && s.visits[k].Skipped? ensures s.visits[k + 1].x == s.visits[k].x {
      if k >= |a.visits| {
        assert s.visits[k] == b.visits[k - |a.visits|];
      }
    }
    if b.visits == [] {
      assert s.visits == a.visits;
    }
  }

  lemma {:induction false} ExecPasses<X>(ps: seq<Plugin<X>>, i: nat, x: X)
    requires i <= |ps|
    ensures PassesOn(ps, Exec(ps, i, x))
    decreases |ps| - i, 0
  {
    if i < |ps| {
      if ps[i].skip(x) {
        ExecPasses(ps, i + 1, x);
        PassesAfter(ps, Skipped(i, x), Exec(ps, i + 1, x));
      } else {
        BodyPasses(ps, i + 1, ps[i], 0, x);
        PassesAfter(ps, Ran(i, x), Body(ps, i + 1, ps[i], 0, x));
      }
    }
  }

  lemma {:induction false} BodyPasses<X>(ps: seq<Plugin<X>>, i: nat, p: Plugin<X>, k: nat, x: X)
    requires i <= |ps|
    ensures PassesOn(ps, Body(ps, i, p, k, x))
    decreases |ps| - i, 1 + if k < p.limit then p.limit - k else 0
  {
    if Calls(p, x, k) {
      var a := Exec(ps, i, p.next(x, k).value);
      ExecPasses(ps, i, p.next(x, k).value);
      BodyPasses(ps, a.index, p, k + 1, a.x);
      BodyInTurn(ps, a.index, p, k + 1, a.x);
      PassesJoin(ps, a, Body(ps, a.index, p, k + 1, a.x));
    }
  }

  // ---------- Only the plugins that run matter ----------

  /** The plugins that ran, with the exchanges they ran on. */
  ghost function RanWith<X>(ps: seq<Plugin<X>>, vs: seq<Visit<X>>): seq<(Plugin<X>, X)> {
    if vs == [] then []
    else (if vs[0].Ran? && vs[0].index < |ps| then [(ps[vs[0].index], vs[0].x)] else []) + RanWith(ps, vs[1..])
  }

  lemma {:induction false} RanConcat<X>(ps: seq<Plugin<X>>, a: seq<Visit<X>>, b: seq<Visit<X>>)
    ensures RanWith(ps, a + b) == RanWith(ps, a) + RanWith(ps, b)
  {
    if a == [] {
      assert a + b == b;
    } else {
      assert (a + b)[1..] == a[1..] + b;
      RanConcat(ps, a[1..], b);
    }
  }

  lemma RanFirst<X>(ps: seq<Plugin<X>>, v: Visit<X>, vs: seq<Visit<X>>)
    ensures RanWith(ps, [v] + vs) ==
            (if v.Ran? && v.index < |ps| then [(ps[v.index], v.x)] else []) + RanWith(ps, vs)
  {
    assert ([v] + vs)[1..] == vs;
  }

  /** Two outcomes with the same exchange and the same runs, `skew` places apart. */
  ghost predicate Same<X>(ps: seq<Plugin<X>>, a: Outcome<X>, qs: seq<Plugin<X>>, b: Outcome<X>, skew: int) {
    a.x == b.x && a.index == b.index + skew && RanWith(ps, a.visits) == RanWith(qs, b.visits)
  }

  lemma SameAfter<X>(ps: seq<Plugin<X>>, v: Visit<X>, a: Outcome<X>, qs: seq<Plugin<X>>, w: Visit<X>, b: Outcome<X>, skew: int)
    requires Same(ps, a, qs, b, skew) && v.x == w.x && v.Ran? == w.Ran?
    requires v.index < |ps| && w.index < |qs| && ps[v.index] == qs[w.index]
    ensures Same(ps, a.(visits := [v] + a.visits), qs, b.(visits := [w] + b.visits), skew)
  {
    RanFirst(ps, v, a.visits);
    RanFirst(qs, w, b.visits);
  }

  lemma SameJoin<X>(ps: seq<Plugin<X>>, a: Outcome<X>, c: Outcome<X>, qs: seq<Plugin<X>>, b: Outcome<X>, d: Outcome<X>,
                    skew: int, skew': int)
    requires Same(ps, a, qs, b, skew) && Same(ps, c, qs, d, skew')
    ensures Same(ps, c.(visits := a.visits + c.visits), qs, d.(visits := b.visits + d.visits), skew')
  {
    RanConcat(ps, a.visits, c.visits);
    RanConcat(qs, b.visits, d.visits);
  }

  /** What a chain does depends on its remaining plugins only. */
  lemma {:induction false} ExecSuffix<X>(ps: seq<Plugin<X>>, i: nat, qs: seq<Plugin<X>>, j: nat, x: X)
    requires i <= |ps| && j <= |qs| && ps[i..] == qs[j..]
    ensures Same(ps, Exec(ps, i, x), qs, Exec(qs, j, x), i - j)
    decreases |ps| - i, 0
  {
    assert |ps| - i == |qs| - j;
    if i < |ps| {
      assert ps[i] == ps[i..][0] == qs[j] && ps[i + 1..] == ps[i..][1..] == qs[j + 1..];
      if ps[i].skip(x) {
        ExecSuffix(ps, i + 1, qs, j + 1, x);
        SameAfter(ps, Skipped(i, x), Exec(ps, i + 1, x), qs, Skipped(j, x), Exec(qs, j + 1, x), i - j);
      } else {
        BodySuffix(ps, i + 1, qs, j + 1, ps[i], 0, x);
        SameAfter(ps, Ran(i, x), Body(ps, i + 1, ps[i], 0, x), qs, Ran(j, x), Body(qs, j + 1, ps[i], 0, x), i - j);
      }
    }
  }

  lemma {:induction false} BodySuffix<X>(ps: seq<Plugin<X>>, i: nat, qs: seq<Plugin<X>>, j: nat, p: Plugin<X>, k: nat, x: X)
    requires i <= |ps| && j <= |qs| && ps[i..] == qs[j..]
    ensures Same(ps, Body(ps, i, p, k, x), qs, Body(qs, j, p, k, x), i - j)
    decreases |ps| - i, 1 + if k < p.limit then p.limit - k else 0
  {
    if Calls(p, x, k) {
      var y := p.next(x, k).value;
      var a, b := Exec(ps, i, y), Exec(qs, j, y);
      ExecSuffix(ps, i, qs, j, y);
      assert ps[a.index..] == ps[i..][a.index - i..] && qs[b.index..] == qs[j..][b.index - j..];
      BodySuffix(ps, a.index, qs, b.index, p, k + 1, a.x);
      SameJoin(ps, a, Body(ps, a.index, p, k + 1, a.x), qs, b, Body(qs, b.index, p, k + 1, b.x), i - j, i - j);
    }
  }

  function Remove<X>(ps: seq<Plugin<X>>, n: nat): seq<Plugin<X>>
    requires n < |ps|
  {
    ps[..n] + ps[n + 1..]
  }

  lemma RemoveFacts<X>(ps: seq<Plugin<X>>, n: nat, i: nat)
    requires n < |ps| && i <= |ps|
    ensures |Remove(ps, n)| == |ps| - 1
    ensures i < n ==> Remove(ps, n)[i] == ps[i]
    ensures i > n ==> Remove(ps, n)[i - 1..] == ps[i..]
  {
  }

  /** Plugin n did not run in a call that started at i. */
  ghost predicate Idle<X>(r: Outcome<X>, i: nat, n: nat) {
    i <= n && (n < r.index ==> n - i < |r.visits| && r.visits[n - i].Skipped?)
  }

  /** The same call without plugin n. */
  ghost predicate SameWithout<X>(ps: seq<Plugin<X>>, r: Outcome<X>, s: Outcome<X>, n: nat)
    requires n < |ps|
  {
    Same(ps, r, Remove(ps, n), s, if n < r.index then 1 else 0)
  }

  lemma RemoveSkipped<X>(ps: seq<Plugin<X>>, n: nat, x: X)
    requires n < |ps| && ps[n].skip(x)
    ensures SameWithout(ps, Exec(ps, n, x), Exec(Remove(ps, n), n, x), n)
  {
    var qs := Remove(ps, n);
    RemoveFacts(ps, n, n + 1);
    ExecSuffix(ps, n + 1, qs, n, x);
    RanFirst(ps, Skipped(n, x), Exec(ps, n + 1, x).visits);
  }

  /** Taking a plugin that does not run out of the list changes neither the exchange nor the runs. */
  lemma {:induction false} ExecRemove<X>(ps: seq<Plugin<X>>, i: nat, x: X, n: nat)
    requires i <= n < |ps| && Idle(Exec(ps, i, x), i, n)
    ensures SameWithout(ps, Exec(ps, i, x), Exec(Remove(ps, n), i, x), n)
    decreases |ps| - i, 0
  {
    var qs := Remove(ps, n);
    RemoveFacts(ps, n, i);
    if i == n {
      assert ps[n].skip(x);
      RemoveSkipped(ps, n, x);
    } else if ps[i].skip(x) {
      var r := Exec(ps, i + 1, x);
      assert Idle(r, i + 1, n);
      ExecRemove(ps, i + 1, x, n);
      SameAfter(ps, Skipped(i, x), r, qs, Skipped(i, x), Exec(qs, i + 1, x), if n < r.index then 1 else 0);
    } else {
      var r := Body(ps, i + 1, ps[i], 0, x);
      assert Idle(r, i + 1, n);
      BodyRemove(ps, i + 1, ps[i], 0, x, n);
      SameAfter(ps, Ran(i, x), r, qs, Ran(i, x), Body(qs, i + 1, ps[i], 0, x), if n < r.index then 1 else 0);
    }
  }

  lemma IdleFirst<X>(a: Outcome<X>, b: Outcome<X>, i: nat, n: nat)
    requires i <= a.index <= b.index && |a.visits| == a.index - i && |b.visits| == b.index - a.index
    requires Idle(b.(visits := a.visits + b.visits), i, n)
    ensures Idle(a, i, n) && (a.index <= n ==> Idle(b, a.index, n))
  {
    var vs := a.visits + b.visits;
    if n < a.index {
      assert vs[n - i] == a.visits[n - i];
    } else if n < b.index {
      assert vs[n - i] == b.visits[n - a.index];
    }
  }

  lemma RemovedBefore<X>(ps: seq<Plugin<X>>, n: nat, a: Outcome<X>, c: Outcome<X>, p: Plugin<X>, k: nat)
    requires n < a.index <= |ps| && Same(ps, a, Remove(ps, n), c, 1)
    ensures Same(ps, Body(ps, a.index, p, k, a.x), Remove(ps, n), Body(Remove(ps, n), c.index, p, k, c.x), 1)
  {
    RemoveFacts(ps, n, a.index);
    BodySuffix(ps, a.index, Remove(ps, n), c.index, p, k, a.x);
  }

  lemma BodyCall<X>(ps: seq<Plugin<X>>, i: nat, p: Plugin<X>, k: nat, x: X)
    requires i <= |ps| && Calls(p, x, k)
    ensures var a := Exec(ps, i, p.next(x, k).value);
            var b := Body(ps, a.index, p, k + 1, a.x);
            Body(ps, i, p, k, x) == b.(visits := a.visits + b.visits)
  {
  }

  lemma IdleCall<X>(ps: seq<Plugin<X>>, i: nat, p: Plugin<X>, k: nat, x: X, n: nat)
    requires i <= n < |ps| && Calls(p, x, k) && Idle(Body(ps, i, p, k, x), i, n)
    ensures var a := Exec(ps, i, p.next(x, k).value);
            Idle(a, i, n) && (a.index <= n ==> Idle(Body(ps, a.index, p, k + 1, a.x), a.index, n))
  {
    var a := Exec(ps, i, p.next(x, k).value);
    ExecInTurn(ps, i, p.next(x, k).value);
    BodyInTurn(ps, a.index, p, k + 1, a.x);
    BodyCall(ps, i, p, k, x);
    IdleFirst(a, Body(ps, a.index, p, k + 1, a.x), i, n);
  }

  lemma JoinWithout<X>(ps: seq<Plugin<X>>, n: nat, a: Outcome<X>, b: Outcome<X>, c: Outcome<X>, d: Outcome<X>)
    requires n < |ps| && SameWithout(ps, a, c, n) && SameWithout(ps, b, d, n)
    ensures SameWithout(ps, b.(visits := a.visits + b.visits), d.(visits := c.visits + d.visits), n)
  {
    SameJoin(ps, a, b, Remove(ps, n), c, d, if n < a.index then 1 else 0, if n < b.index then 1 else 0);
  }

  /** What the plugin does after its k-th call, without plugin n. */
  lemma {:induction false} RestRemove<X>(ps: seq<Plugin<X>>, i: nat, p: Plugin<X>, k: nat, x: X, n: nat, a: Outcome<X>, c: Outcome<X>)
    requires i <= n < |ps| && Calls(p, x, k) && Idle(Body(ps, i, p, k, x), i, n)
    requires a == Exec(ps, i, p.next(x, k).value) && SameWithout(ps, a, c, n) && c.index < |ps|
    ensures SameWithout(ps, Body(ps, a.index, p, k + 1, a.x), Body(Remove(ps, n), c.index, p, k + 1, c.x), n)
    decreases |ps| - i, 1 + if k < p.limit then p.limit - k else 0, 0
  {
    if n < a.index {
      RemovedBefore(ps, n, a, c, p, k + 1);
    } else {
      IdleCall(ps, i, p, k, x, n);
      BodyRemove(ps, a.index, p, k + 1, a.x, n);
    }
  }

  lemma {:induction false} BodyRemove<X>(ps: seq<Plugin<X>>, i: nat, p: Plugin<X>, k: nat, x: X, n: nat)
    requires i <= n < |ps| && Idle(Body(ps, i, p, k, x), i, n)
    ensures SameWithout(ps, Body(ps, i, p, k, x), Body(Remove(ps, n), i, p, k, x), n)
    decreases |ps| - i, 1 + if k < p.limit then p.limit - k else 0, 1
  {
    var qs := Remove(ps, n);
    if Calls(p, x, k) {
      var y := p.next(x, k).value;
      var a, c := Exec(ps, i, y), Exec(qs, i, y);
      assert Idle(a, i, n) by { IdleCall(ps, i, p, k, x, n); }
      ExecRemove(ps, i, y, n);
      RestRemove(ps, i, p, k, x, n, a, c);
      BodyCall(ps, i, p, k, x);
      BodyCall(qs, i, p, k, x);
      JoinWithout(ps, n, a, Body(ps, a.index, p, k + 1, a.x), c, Body(qs, c.index, p, k + 1, c.x));
    }
  }

  ghost predicate AllRan<X>(ps: seq<Plugin<X>>, r: Outcome<X>) {
    r.index == |ps| == |r.visits| && forall k :: 0 <= k < |r.visits| ==> r.visits[k].Ran?
  }

  /**
   A request does to the exchange what a chain of just the plugins that run does: the same plugins
   run on the same exchanges, and the same exchange comes back.
   */
  lemma {:induction false} OnlyRunsMatter<X>(ps: seq<Plugin<X>>, x: X) returns (qs: seq<Plugin<X>>)
    ensures AllRan(qs, Exec(qs, 0, x)) && Exec(qs, 0, x).x == Exec(ps, 0, x).x
    ensures RanWith(qs, Exec(qs, 0, x).visits) == RanWith(ps, Exec(ps, 0, x).visits)
    decreases |ps|
  {
    var r := Exec(ps, 0, x);
    ExecInTurn(ps, 0, x);
    if n :| 0 <= n < |ps| && Idle(r, 0, n) {
      ExecRemove(ps, 0, x, n);
      RemoveFacts(ps, n, 0);
      qs := OnlyRunsMatter(Remove(ps, n), x);
    } else {
      qs := ps;
      if r.index < |ps| {
        assert Idle(r, 0, r.index);
      }
      forall k | 0 <= k < |r.visits| ensures r.visits[k].Ran? {
        assert !Idle(r, 0, k);
      }
    }
  }

  // ---------- The chain is the nesting of its plugins ----------

  /** Plugins that call the chain at most once, nested in one another. */
  function Nesting<X>(ps: seq<Plugin<X>>, x: X): X {
    if ps == [] then x
    else if ps[0].skip(x) then Nesting(ps[1..], x)
    else if Calls(ps[0], x, 0) then ps[0].finish(Nesting(ps[1..], ps[0].next(x, 0).value))
    else ps[0].finish(x)
  }

  lemma {:induction false} ExecNests<X>(ps: seq<Plugin<X>>, i: nat, x: X)
    requires i <= |ps| && forall n :: i <= n < |ps| ==> ps[n].limit <= 1
    ensures Exec(ps, i, x).x == Nesting(ps[i..], x)
    decreases |ps| - i
  {
    if i < |ps| {
      assert ps[i..][0] == ps[i] && ps[i..][1..] == ps[i + 1..];
      ExecNests(ps, i + 1, x);
      if !ps[i].skip(x) && Calls(ps[i], x, 0) {
        var y := ps[i].next(x, 0).value;
        ExecNests(ps, i + 1, y);
        var a := Exec(ps, i + 1, y);
        assert Body(ps, a.index, ps[i], 1, a.x).x == ps[i].finish(a.x);
        assert Body(ps, i + 1, ps[i], 0, x).x == ps[i].finish(a.x);
      }
    }
  }

  // ---------- The chain as a machine with a call stack ----------

  /** A thread in the chain: about to execute it, or back in the plugin on top of the stack, which has made `calls` calls. */
  datatype Config<!X> = Config(calling: bool, index: nat, x: X, stack: seq<(Plugin<X>, nat)>, visits: seq<Visit<X>>)

  function Tick<X>(ps: seq<Plugin<X>>, c: Config<X>): Config<X> {
    if c.calling then
      if c.index >= |ps| then c.(calling := false)
      else if ps[c.index].skip(c.x) then c.(index := c.index + 1, visits := c.visits + [Skipped(c.index, c.x)])
      else c.(calling := false, index := c.index + 1, stack := c.stack + [(ps[c.index], 0)],
              visits := c.visits + [Ran(c.index, c.x)])
    else if c.stack == [] then c
    else
      var top := |c.stack| - 1;
      var (p, k) := c.stack[top];
      if Calls(p, c.x, k) then c.(calling := true, x := p.next(c.x, k).value, stack := c.stack[..top] + [(p, k + 1)])
      else c.(x := p.finish(c.x), stack := c.stack[..top])
  }

  function Machine<X>(ps: seq<Plugin<X>>): Config<X> -> Config<X> { (c: Config<X>) => Tick(ps, c) }

  function Iterate<C>(step: C -> C, c: C, n: nat): C
    decreases n
  {
    if n == 0 then c else Iterate(step, step(c), n - 1)
  }

  lemma {:induction false} IterateAdd<C>(step: C -> C, c: C, m: nat, n: nat)
    ensures Iterate(step, c, m + n) == Iterate(step, Iterate(step, c, m), n)
    decreases m
  {
    if m > 0 {
      IterateAdd(step, step(c), m - 1, n);
    }
  }

  lemma IterateOnce<C>(step: C -> C, c: C)
    ensures Iterate(step, c, 1) == step(c)
  {
    assert Iterate(step, c, 1) == Iterate(step, step(c), 0);
  }

  /** The machine that has returned from a call with outcome r. */
  function Returned<X>(r: Outcome<X>, stack: seq<(Plugin<X>, nat)>, vs: seq<Visit<X>>): Config<X> {
    Config(false, r.index, r.x, stack, vs + r.visits)
  }

  /** What a call does before anybody runs. */
  lemma CallTick<X>(ps: seq<Plugin<X>>, i: nat, x: X, stack: seq<(Plugin<X>, nat)>, vs: seq<Visit<X>>)
    requires i < |ps|
    ensures Tick(ps, Config(true, i, x, stack, vs)) ==
            if ps[i].skip(x) then Config(true, i + 1, x, stack, vs + [Skipped(i, x)])
            else Config(false, i + 1, x, stack + [(ps[i], 0)], vs + [Ran(i, x)])
  {
  }

  lemma {:induction false} ExecTicks<X>(ps: seq<Plugin<X>>, i: nat, x: X, stack: seq<(Plugin<X>, nat)>, vs: seq<Visit<X>>)
    returns (n: nat)
    requires i <= |ps|
    ensures Iterate(Machine(ps), Config(true, i, x, stack, vs), n) == Returned(Exec(ps, i, x), stack, vs)
    decreases |ps| - i, 0
  {
    var c := Config(true, i, x, stack, vs);
    if i == |ps| {
      n := 1;
      IterateOnce(Machine(ps), c);
      assert vs + [] == vs;
    } else {
      var m, v, r: Outcome<X>;
      if ps[i].skip(x) {
        v, r := Skipped(i, x), Exec(ps, i + 1, x);
        m := ExecTicks(ps, i + 1, x, stack, vs + [v]);
      } else {
        v, r := Ran(i, x), Body(ps, i + 1, ps[i], 0, x);
        m := BodyTicks(ps, i + 1, ps[i], 0, x, stack, vs + [v]);
      }
      CallTick(ps, i, x, stack, vs);
      assert vs + [v] + r.visits == vs + ([v] + r.visits);
      n := m + 1;
    }
  }

  lemma PluginTick<X>(ps: seq<Plugin<X>>, i: nat, p: Plugin<X>, k: nat, x: X, stack: seq<(Plugin<X>, nat)>, vs: seq<Visit<X>>)
    ensures Tick(ps, Config(false, i, x, stack + [(p, k)], vs)) ==
            if Calls(p, x, k) then Config(true, i, p.next(x, k).value, stack + [(p, k + 1)], vs)
            else Config(false, i, p.finish(x), stack, vs)
  {
    assert (stack + [(p, k)])[..|stack|] == stack;
  }

  lemma {:induction false} BodyTicks<X>(ps: seq<Plugin<X>>, i: nat, p: Plugin<X>, k: nat, x: X,
                                        stack: seq<(Plugin<X>, nat)>, vs: seq<Visit<X>>)
    returns (n: nat)
    requires i <= |ps|
    ensures Iterate(Machine(ps), Config(false, i, x, stack + [(p, k)], vs), n) == Returned(Body(ps, i, p, k, x), stack, vs)
    decreases |ps| - i, 1 + if k < p.limit then p.limit - k else 0, 1
  {
    var c := Config(false, i, x, stack + [(p, k)], vs);
    PluginTick(ps, i, p, k, x, stack, vs);
    if Calls(p, x, k) {
      var y := p.next(x, k).value;
      var l := ExecTicks(ps, i, y, stack + [(p, k + 1)], vs);
      var m := AfterCall(ps, i, p, k, x, stack, vs);
      IterateAdd(Machine(ps), Tick(ps, c), l, m);
      n := 1 + (l + m);
    } else {
      n := 1;
      IterateOnce(Machine(ps), c);
      assert vs + [] == vs;
    }
  }

  /** The rest of the plugin after its k-th call has returned. */
  lemma {:induction false} AfterCall<X>(ps: seq<Plugin<X>>, i: nat, p: Plugin<X>, k: nat, x: X,
                                        stack: seq<(Plugin<X>, nat)>, vs: seq<Visit<X>>)
    returns (m: nat)
    requires i <= |ps| && Calls(p, x, k)
    ensures Iterate(Machine(ps), Returned(Exec(ps, i, p.next(x, k).value), stack + [(p, k + 1)], vs), m) ==
            Returned(Body(ps, i, p, k, x), stack, vs)
    decreases |ps| - i, 1 + if k < p.limit then p.limit - k else 0, 0
  {
    var a := Exec(ps, i, p.next(x, k).value);
    var b := Body(ps, a.index, p, k + 1, a.x);
    m := BodyTicks(ps, a.index, p, k + 1, a.x, stack, vs + a.visits);
    assert (vs + a.visits) + b.visits == vs + (a.visits + b.visits);
  }

  /** The machine started on a request halts, with an empty stack and the outcome of the chain. */
  lemma RequestRuns<X>(ps: seq<Plugin<X>>, x: X) returns (n: nat)
    ensures var r := Iterate(Machine(ps), Config(true, 0, x, [], []), n);
            && r == Config(false, Exec(ps, 0, x).index, Exec(ps, 0, x).x, [], Exec(ps, 0, x).visits)
            && Tick(ps, r) == r
  {
    n := ExecTicks(ps, 0, x, [], []);
    assert [] + Exec(ps, 0, x).visits == Exec(ps, 0, x).visits;
  }

  // ---------- The configured plugins ----------

  /** Configuration keeps every plugin, orders them, and keeps the order of those with equal order. */
  lemma ConfiguredFacts<X>(ps: seq<Plugin<X>>, k: int)
    ensures var key := (p: Plugin<X>) => p.order;
            && multiset(Configured(ps)) == multiset(ps)
            && (forall a, b :: 0 <= a < b < |Configured(ps)| ==> Configured(ps)[a].order <= Configured(ps)[b].order)
            && Select(Configured(ps), key, k) == Select(ps, key, k)
  {
    var key := (p: Plugin<X>) => p.order;
    SortFacts(ps, key);
    SortIsStable(ps, key, k);
  }
}
