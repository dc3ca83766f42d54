/**
 What double-checked locking is for: a holder is filled once, everything returned is cached, and
 once an instance or the class table is there no later call takes a lock for it.
 */
module ExtensionCaching {
  import opened Options
  import opened Text
  import opened ExtensionLoader
  import opened ExtensionProgress

  // ---------- The caches ----------

  /** Past the second check of holder h and before it is filled. */
  predicate Creating(pc: Pc, h: Holder) {
    match pc
    case CheckClasses(k) => k.ForJoin? && k.h == h
    case EnterClasses(k) => k.ForJoin? && k.h == h
    case RecheckClasses(k) => k.ForJoin? && k.h == h
    case LoadClasses(k) => k.ForJoin? && k.h == h
    case Lookup(_, g) => g == h
    case ReadJoin(_, g, _) => g == h
    case Instantiate(_, g, _) => g == h
    case PutJoin(_, g, _, _) => g == h
    case RereadJoin(_, g, _) => g == h
    case SetHolder(_, g, _) => g == h
    case _ => false
  }

  ghost predicate Unfilled(s: State, t: Thread) {
    forall h :: Creating(PcOf(s, t), h) ==> h !in s.values
  }

  /** The holder of n is filled, with o. */
  ghost predicate Cached(s: State, n: Name, o: Object) {
    n in s.instances && s.instances[n] in s.values && s.values[s.instances[n]] == o
  }

  /** Who creates an instance finds its holder empty, and what was returned is cached. */
  ghost predicate CachesOk(s: State) {
    (forall t :: Unfilled(s, t)) && (forall p :: p in s.returned ==> Cached(s, p.0, p.1))
  }

  /** What a step of thread t does to the holders. */
  ghost predicate Fills(s: State, s': State, t: Thread) {
    && Unfilled(s', t)
    && (s'.values == s.values || s.instanceLock == Some(t))
    && (forall h :: h in s.values ==> h in s'.values && s'.values[h] == s.values[h])
    && (forall p :: p in s'.returned ==> p in s.returned || Cached(s', p.0, p.1))
  }

  lemma OuterFills(s: State, t: Thread)
    requires ThreadOk(s, t) && Unfilled(s, t) && OuterPc(PcOf(s, t))
    ensures Fills(s, StepOuter(s, t), t)
  {
  }

  lemma ClassesFills(s: State, t: Thread, loaded: Option<map<Name, Class>>)
    requires ThreadOk(s, t) && Unfilled(s, t) && ClassesPc(PcOf(s, t))
    ensures Fills(s, StepClasses(s, t, loaded), t)
  {
  }

  lemma InnerFills(s: State, t: Thread)
    requires ThreadOk(s, t) && Unfilled(s, t)
    requires !OuterPc(PcOf(s, t)) && !ClassesPc(PcOf(s, t)) && !CreatePc(PcOf(s, t))
    ensures Fills(s, StepInner(s, t), t)
  {
  }

  lemma CreateFills(s: State, t: Thread, constructs: bool)
    requires ThreadOk(s, t) && Unfilled(s, t) && CreatePc(PcOf(s, t))
    ensures Fills(s, StepCreate(s, t, constructs), t)
  {
  }

  lemma StepFills(s: State, t: Thread, ch: Choice)
    requires ThreadOk(s, t) && Unfilled(s, t) && Enabled(s, t, ch)
    ensures Fills(s, Step(s, t, ch), t)
  {
    var pc := PcOf(s, t);
    if ch.Go? {
      if OuterPc(pc) {
        OuterFills(s, t);
      } else if ClassesPc(pc) {
        ClassesFills(s, t, ch.loaded);
      } else if CreatePc(pc) {
        CreateFills(s, t, ch.constructs);
      } else {
        InnerFills(s, t);
      }
    }
  }

  lemma CreatorHoldsLock(s: State, t: Thread, h: Holder)
    requires ThreadOk(s, t) && Creating(PcOf(s, t), h)
    ensures s.instanceLock == Some(t)
  {
  }

  lemma OthersUnfilled(s: State, s': State, t: Thread, u: Thread)
    requires u != t && ThreadOk(s, u) && Unfilled(s, u) && Fills(s, s', t) && PcOf(s', u) == PcOf(s, u)
    ensures Unfilled(s', u)
  {
    forall h | Creating(PcOf(s', u), h) ensures h !in s'.values {
      CreatorHoldsLock(s, u, h);
    }
  }

  lemma CachesStep(s: State, t: Thread, ch: Choice)
    requires Inv(s) && CachesOk(s) && Enabled(s, t, ch)
    ensures CachesOk(Step(s, t, ch)) && Fills(s, Step(s, t, ch), t)
  {
    var s' := Step(s, t, ch);
    assert ThreadOk(s, t) && Unfilled(s, t);
    StepFills(s, t, ch);
    StepEvolves(s, t, ch);
    forall u ensures Unfilled(s', u) {
      if u != t {
        assert ThreadOk(s, u) && Unfilled(s, u);
        OthersUnfilled(s, s', t, u);
      }
    }
  }

  /**
   In every interleaving: a thread that creates an instance is the first for its holder, so no holder
   is ever filled twice, and every object ever returned can be read from its holder.
   */
  lemma {:induction false} RunCaches(states: seq<State>, steps: seq<(Thread, Choice)>, i: nat)
    requires IsRun(states, steps) && i < |states|
    ensures CachesOk(states[i])
  {
    if i > 0 {
      RunCaches(states, steps, i - 1);
      RunKeeps(states, steps, i - 1);
      CachesStep(states[i - 1], steps[i - 1].0, steps[i - 1].1);
    }
  }

  /** A cached instance stays cached. */
  lemma {:induction false} StaysCached(states: seq<State>, steps: seq<(Thread, Choice)>, i: nat, j: nat, n: Name, o: Object)
    requires IsRun(states, steps) && i <= j < |states| && Cached(states[i], n, o)
    ensures Cached(states[j], n, o)
    decreases j
  {
    if i < j {
      StaysCached(states, steps, i, j - 1, n, o);
      RunKeeps(states, steps, j - 1);
      RunCaches(states, steps, j - 1);
      CachesStep(states[j - 1], steps[j - 1].0, steps[j - 1].1);
      StepKeeps(states[j - 1], steps[j - 1].0, steps[j - 1].1);
    }
  }

  // ---------- Cached calls take no lock ----------

  predicate AtLock(pc: Pc, n: Name) { pc.Enter? && pc.name == n }

  predicate AtClassLock(pc: Pc) { pc.EnterClasses? }

  lemma LockApproach(s: State, t: Thread, ch: Choice, n: Name)
    requires ThreadOk(s, t) && Enabled(s, t, ch) && AtLock(PcOf(Step(s, t, ch), t), n)
    ensures n in s.instances && s.instances[n] !in s.values
  {
  }

  lemma ClassLockApproach(s: State, t: Thread, ch: Choice)
    requires Enabled(s, t, ch) && AtClassLock(PcOf(Step(s, t, ch), t))
    ensures s.classes.None?
  {
  }

  /** Once an instance is cached, only threads that already wait for the lock on its behalf will ever take it. */
  lemma {:induction false} CachedTakesNoLock(states: seq<State>, steps: seq<(Thread, Choice)>, i: nat, j: nat, t: Thread, n: Name, o: Object)
    requires IsRun(states, steps) && i <= j < |states| && Cached(states[i], n, o) && !AtLock(PcOf(states[i], t), n)
    ensures !AtLock(PcOf(states[j], t), n)
    decreases j
  {
    if i < j {
      CachedTakesNoLock(states, steps, i, j - 1, t, n, o);
      StaysCached(states, steps, i, j - 1, n, o);
      RunKeeps(states, steps, j - 1);
      var u, ch := steps[j - 1].0, steps[j - 1].1;
      OthersStay(states[j - 1], u, ch, t);
      assert ThreadOk(states[j - 1], u);
      if AtLock(PcOf(states[j], t), n) {
        LockApproach(states[j - 1], t, ch, n);
      }
    }
  }

  /** Once the class table is loaded, only threads that already wait for its lock will ever take it. */
  lemma {:induction false} LoadedTakesNoLock(states: seq<State>, steps: seq<(Thread, Choice)>, i: nat, j: nat, t: Thread)
    requires IsRun(states, steps) && i <= j < |states| && states[i].classes.Some? && !AtClassLock(PcOf(states[i], t))
    ensures !AtClassLock(PcOf(states[j], t))
    decreases j
  {
    if i < j {
      LoadedTakesNoLock(states, steps, i, j - 1, t);
      RunGrows(states, steps, i, j - 1);
      RunKeeps(states, steps, j - 1);
      var u, ch := steps[j - 1].0, steps[j - 1].1;
      OthersStay(states[j - 1], u, ch, t);
      if AtClassLock(PcOf(states[j], t)) {
        ClassLockApproach(states[j - 1], t, ch);
      }
    }
  }

  /** A call for a cached name returns the cached object in two steps, whoever holds the locks, and changes no table. */
  lemma CachedCall(s: State, t: Thread, n: Name, o: Object, a: Choice, b: Choice)
    requires Resting(PcOf(s, t)) && !Blank(n) && Cached(s, n, o) && a.Go? && b.Go?
    ensures var s1 := Step(s, t, Call(n));
            var s2 := Step(s1, t, a);
            var s3 := Step(s2, t, b);
            && Enabled(s, t, Call(n)) && Enabled(s1, t, a) && Enabled(s2, t, b)
            && PcOf(s3, t) == Done(n, o) && s3 == s.(pcs := s3.pcs, returned := s.returned + {(n, o)})
  {
    var s1 := Step(s, t, Call(n));
    assert s1 == At(s, t, GetHolder(n));
    var s2 := Step(s1, t, a);
    assert PcOf(s2, t) == Check(n, s.instances[n]);
  }

  // ---------- getExtensionClasses alone ----------

  /** Thread t is in a call of getExtensionClasses of its own and nobody else holds the class lock. */
  ghost predicate Loads(s: State, t: Thread) {
    && ClassesPc(PcOf(s, t)) && PcOf(s, t).k.Alone?
    && FreeFor(s.classLock, t) && LocksOkFor(s, t)
  }

  /** The table is what it was, or what is loaded if there was none. */
  ghost predicate TableOf(s: State, r: State, loaded: map<Name, Class>) {
    r.classes == if s.classes.Some? then s.classes else Some(loaded)
  }

  lemma LoadsStep(s: State, t: Thread, loaded: map<Name, Class>)
    requires ThreadOk(s, t) && Loads(s, t)
    ensures var s' := Step(s, t, Go(Some(loaded), true));
            && Enabled(s, t, Go(Some(loaded), true))
            && (s'.classes == s.classes || TableOf(s, s', loaded))
            && (if PcOf(s', t).Idle? then s'.classLock == None && TableOf(s, s', loaded)
                else Loads(s', t) && StepsLeft(PcOf(s', t)) < StepsLeft(PcOf(s, t)))
  {
  }

  /** From any state of the invariant a getExtensionClasses call with a working load ends, with the table loaded and the lock free. */
  lemma {:induction false} ClassesSucceed(s: State, t: Thread, loaded: map<Name, Class>) returns (ss: seq<State>)
    requires Inv(s) && Loads(s, t)
    ensures ss != [] && ss[0] == s && |ss| <= StepsLeft(PcOf(s, t)) - 5 && IsSolo(ss, t, Some(loaded))
    ensures var r := ss[|ss| - 1]; PcOf(r, t).Idle? && r.classLock == None && TableOf(s, r, loaded)
    decreases StepsLeft(PcOf(s, t))
  {
    var s' := Step(s, t, Go(Some(loaded), true));
    assert ThreadOk(s, t);
    LoadsStep(s, t, loaded);
    StepKeeps(s, t, Go(Some(loaded), true));
    if PcOf(s', t).Idle? {
      ss := [s, s'];
    } else {
      var rest := ClassesSucceed(s', t, loaded);
      ss := [s] + rest;
      assert ss[|ss| - 1] == rest[|rest| - 1];
      assert forall i :: 1 <= i < |ss| ==> ss[i] == rest[i - 1];
    }
  }

  /** A call of getExtensionClasses starts such a run. */
  lemma ClassesStart(s: State, t: Thread)
    requires Resting(PcOf(s, t)) && LocksOkFor(s, t) && FreeFor(s.classLock, t)
    ensures Enabled(s, t, CallClasses) && Loads(Step(s, t, CallClasses), t)
  {
  }

  // ---------- getExtensionLoader ----------

  /** A lookup of a filed interface returns its loader in one step and constructs nothing. */
  lemma FiledLookup(r: Registry, t: Thread, i: Interface, constructs: bool)
    requires i in r.loaders
    ensures var r' := LookupStep(LookupStep(r, t, LCall(i, true)), t, LGo(constructs));
            && LookupPcOf(r', t) == LDone(i, Some(r.loaders[i]))
            && r'.built == r.built && r'.loaders == r.loaders
  {
  }
}
