/**
 That the loader's calls get somewhere: locks are held only by threads inside their blocks, some
 thread can always move, every call ends within a fixed number of its own steps, and it ends in
 success unless loading or a constructor fails or the name is unknown.
 */
module ExtensionProgress {
  import opened Options
  import opened Text
  import opened ExtensionLoader

  // ---------- Locks ----------

  /** Between entering and leaving synchronized (cachedInstances). */
  predicate InJoin(pc: Pc) {
    || pc.Recheck? || pc.Lookup? || pc.ReadJoin? || pc.Instantiate? || pc.PutJoin? || pc.RereadJoin? || pc.SetHolder?
    || (ClassesPc(pc) && pc.k.ForJoin?)
  }

  /** Between entering and leaving synchronized (cachedClasses). */
  predicate InClasses(pc: Pc) { pc.RecheckClasses? || pc.LoadClasses? }

  ghost predicate LocksOkFor(s: State, t: Thread) {
    (s.instanceLock == Some(t) <==> InJoin(PcOf(s, t))) && (s.classLock == Some(t) <==> InClasses(PcOf(s, t)))
  }

  /** A lock is held exactly by the thread that is inside its block. */
  ghost predicate LocksOk(s: State) {
    forall t :: LocksOkFor(s, t)
  }

  /** A step changes a lock only by taking a free one or giving back its own. */
  ghost predicate LockMoves(before: Option<Thread>, after: Option<Thread>, t: Thread) {
    after == before || (before == None && after == Some(t)) || (before == Some(t) && after == None)
  }

  /** What a step of thread t does to the locks and to the other threads. */
  ghost predicate Moves(s: State, s': State, t: Thread) {
    && LocksOkFor(s', t)
    && LockMoves(s.instanceLock, s'.instanceLock, t) && LockMoves(s.classLock, s'.classLock, t)
  }

  lemma OuterMoves(s: State, t: Thread)
    requires LocksOkFor(s, t) && OuterPc(PcOf(s, t)) && (PcOf(s, t).Enter? ==> s.instanceLock == None)
    ensures Moves(s, StepOuter(s, t), t)
  {
  }

  lemma ClassesMoves(s: State, t: Thread, loaded: Option<map<Name, Class>>)
    requires LocksOkFor(s, t) && ClassesPc(PcOf(s, t)) && (PcOf(s, t).EnterClasses? ==> s.classLock == None)
    ensures Moves(s, StepClasses(s, t, loaded), t)
  {
  }

  lemma InnerMoves(s: State, t: Thread)
    requires LocksOkFor(s, t) && !OuterPc(PcOf(s, t)) && !ClassesPc(PcOf(s, t)) && !CreatePc(PcOf(s, t))
    ensures Moves(s, StepInner(s, t), t)
  {
  }

  lemma CreateMoves(s: State, t: Thread, constructs: bool)
    requires LocksOkFor(s, t) && CreatePc(PcOf(s, t))
    ensures Moves(s, StepCreate(s, t, constructs), t)
  {
  }

  lemma StepLocks(s: State, t: Thread, ch: Choice)
    requires Enabled(s, t, ch) && LocksOkFor(s, t)
    ensures Moves(s, Step(s, t, ch), t)
  {
    var pc := PcOf(s, t);
    if ch.Go? {
      if OuterPc(pc) {
        OuterMoves(s, t);
      } else if ClassesPc(pc) {
        ClassesMoves(s, t, ch.loaded);
      } else if CreatePc(pc) {
        CreateMoves(s, t, ch.constructs);
      } else {
        InnerMoves(s, t);
      }
    }
  }

  lemma OthersStay(s: State, t: Thread, ch: Choice, u: Thread)
    requires Inv(s) && Enabled(s, t, ch)
    ensures u != t ==> PcOf(Step(s, t, ch), u) == PcOf(s, u)
  {
    assert ThreadOk(s, t);
    StepEvolves(s, t, ch);
  }

  lemma LocksStep(s: State, t: Thread, ch: Choice)
    requires Inv(s) && LocksOk(s) && Enabled(s, t, ch)
    ensures LocksOk(Step(s, t, ch))
  {
    assert LocksOkFor(s, t);
    StepLocks(s, t, ch);
    forall u ensures LocksOkFor(Step(s, t, ch), u) {
      assert LocksOkFor(s, u);
      OthersStay(s, t, ch, u);
    }
  }

  /** In every state of every interleaving the locks are held exactly by the threads inside their blocks. */
  lemma {:induction false} RunLocks(states: seq<State>, steps: seq<(Thread, Choice)>, i: nat)
    requires IsRun(states, steps) && i < |states|
    ensures LocksOk(states[i])
  {
    if i > 0 {
      RunLocks(states, steps, i - 1);
      RunKeeps(states, steps, i - 1);
      LocksStep(states[i - 1], steps[i - 1].0, steps[i - 1].1);
    }
  }

  /** A thread whose call has ended holds no lock. */
  lemma RestingHoldsNothing(states: seq<State>, steps: seq<(Thread, Choice)>, i: nat, t: Thread)
    requires IsRun(states, steps) && i < |states| && Resting(PcOf(states[i], t))
    ensures states[i].instanceLock != Some(t) && states[i].classLock != Some(t)
  {
    RunLocks(states, steps, i);
    assert LocksOkFor(states[i], t);
  }

  /** The thread that thread t waits for, directly or through another lock; t itself if it can move. */
  ghost function Mover(s: State, t: Thread): Thread {
    if PcOf(s, t).Enter? && s.instanceLock.Some? then
      var u := s.instanceLock.value;
      if PcOf(s, u).EnterClasses? && s.classLock.Some? then s.classLock.value else u
    else if PcOf(s, t).EnterClasses? && s.classLock.Some? then s.classLock.value
    else t
  }

  /** There is no deadlock: as long as some call is not over, some call can take a step. */
  lemma NoDeadlock(states: seq<State>, steps: seq<(Thread, Choice)>, i: nat, t: Thread, loaded: Option<map<Name, Class>>, constructs: bool)
    requires IsRun(states, steps) && i < |states| && !Resting(PcOf(states[i], t))
    ensures Enabled(states[i], Mover(states[i], t), Go(loaded, constructs))
  {
    RunLocks(states, steps, i);
    var s := states[i];
    if s.instanceLock.Some? { assert LocksOkFor(s, s.instanceLock.value); }
    if s.classLock.Some? { assert LocksOkFor(s, s.classLock.value); }
  }

  // ---------- Every call ends ----------

  /** How many steps of its own a call has left at most. */
  function StepsLeft(pc: Pc): nat {
    match pc
    case GetHolder(_) => 16
    case PutHolder(_) => 15
    case RereadHolder(_) => 14
    case Check(_, _) => 13
    case Enter(_, _) => 12
    case Recheck(_, _) => 11
    case CheckClasses(_) => 10
    case EnterClasses(_) => 9
    case RecheckClasses(_) => 8
    case LoadClasses(_) => 7
    case Lookup(_, _) => 6
    case ReadJoin(_, _, _) => 5
    case Instantiate(_, _, _) => 4
    case PutJoin(_, _, _, _) => 3
    case RereadJoin(_, _, _) => 2
    case SetHolder(_, _, _) => 1
    case _ => 0
  }

  lemma OuterAdvances(s: State, t: Thread)
    requires OuterPc(PcOf(s, t))
    ensures StepsLeft(PcOf(StepOuter(s, t), t)) < StepsLeft(PcOf(s, t))
  {
  }

  lemma ClassesAdvances(s: State, t: Thread, loaded: Option<map<Name, Class>>)
    requires ClassesPc(PcOf(s, t))
    ensures StepsLeft(PcOf(StepClasses(s, t, loaded), t)) < StepsLeft(PcOf(s, t))
  {
  }

  lemma InnerAdvances(s: State, t: Thread)
    requires !Resting(PcOf(s, t)) && !OuterPc(PcOf(s, t)) && !ClassesPc(PcOf(s, t)) && !CreatePc(PcOf(s, t))
    ensures StepsLeft(PcOf(StepInner(s, t), t)) < StepsLeft(PcOf(s, t))
  {
  }

  lemma CreateAdvances(s: State, t: Thread, constructs: bool)
    requires CreatePc(PcOf(s, t))
    ensures StepsLeft(PcOf(StepCreate(s, t, constructs), t)) < StepsLeft(PcOf(s, t))
  {
  }

  lemma StepAdvances(s: State, t: Thread, ch: Choice)
    requires Enabled(s, t, ch) && ch.Go?
    ensures StepsLeft(PcOf(Step(s, t, ch), t)) < StepsLeft(PcOf(s, t))
  {
    var pc := PcOf(s, t);
    if OuterPc(pc) {
      OuterAdvances(s, t);
    } else if ClassesPc(pc) {
      ClassesAdvances(s, t, ch.loaded);
    } else if CreatePc(pc) {
      CreateAdvances(s, t, ch.constructs);
    } else {
      InnerAdvances(s, t);
    }
  }

  /** In every interleaving each step of a call brings it nearer its end, and the steps of others do not touch it. */
  lemma CallAdvances(s: State, t: Thread, ch: Choice, u: Thread)
    requires Inv(s) && Enabled(s, t, ch)
    ensures u != t ==> PcOf(Step(s, t, ch), u) == PcOf(s, u)
    ensures ch.Go? ==> StepsLeft(PcOf(Step(s, t, ch), t)) < StepsLeft(PcOf(s, t))
  {
    OthersStay(s, t, ch, u);
    if ch.Go? {
      StepAdvances(s, t, ch);
    }
  }

  /** The number of steps that thread t takes from state i on, up to state j. */
  ghost function StepsOf(steps: seq<(Thread, Choice)>, t: Thread, i: nat, j: nat): nat
    requires i <= j <= |steps|
    decreases j
  {
    if i == j then 0 else StepsOf(steps, t, i, j - 1) + if steps[j - 1].0 == t then 1 else 0
  }

  /** A call that is still running has taken fewer steps than it had left when it was observed. */
  lemma {:induction false} CallEnds(states: seq<State>, steps: seq<(Thread, Choice)>, t: Thread, i: nat, j: nat)
    requires IsRun(states, steps) && i <= j < |states|
    requires forall k :: i <= k < j && steps[k].0 == t ==> steps[k].1.Go?
    ensures StepsOf(steps, t, i, j) + StepsLeft(PcOf(states[j], t)) <= StepsLeft(PcOf(states[i], t))
    decreases j
  {
    if i < j {
      CallEnds(states, steps, t, i, j - 1);
      RunKeeps(states, steps, j - 1);
      CallAdvances(states[j - 1], steps[j - 1].0, steps[j - 1].1, t);
    }
  }

  // ---------- How a call can fail ----------

  /** What makes a step end in failure. */
  predicate Fails(s: State, t: Thread, ch: Choice) {
    match ch
    case Call(n) => Blank(n)
    case CallClasses => false
    case Go(loaded, constructs) =>
      match PcOf(s, t)
      case LoadClasses(_) => loaded.None?
      case Lookup(n, _) => !(s.classes.Some? && n in s.classes.value)
      case Instantiate(_, _, _) => !constructs
      case _ => false
  }

  /** A call fails exactly for a blank name, a failed load, a name that is not bound, or a throwing constructor. */
  lemma FailsIff(s: State, t: Thread, ch: Choice)
    requires Inv(s) && Enabled(s, t, ch)
    ensures PcOf(Step(s, t, ch), t).Failed? <==> Fails(s, t, ch)
  {
    assert ThreadOk(s, t);
  }

  // ---------- A call alone succeeds ----------

  /** The name that a getJoin call is working for. */
  predicate WorksFor(pc: Pc, n: Name) {
    match pc
    case GetHolder(m) => m == n
    case PutHolder(m) => m == n
    case RereadHolder(m) => m == n
    case Check(m, _) => m == n
    case Enter(m, _) => m == n
    case Recheck(m, _) => m == n
    case CheckClasses(k) => k.ForJoin? && k.name == n
    case EnterClasses(k) => k.ForJoin? && k.name == n
    case RecheckClasses(k) => k.ForJoin? && k.name == n
    case LoadClasses(k) => k.ForJoin? && k.name == n
    case Lookup(m, _) => m == n
    case ReadJoin(m, _, _) => m == n
    case Instantiate(m, _, _) => m == n
    case PutJoin(m, _, _, _) => m == n
    case RereadJoin(m, _, _) => m == n
    case SetHolder(m, _, _) => m == n
    case _ => false
  }

  /** The class table, as it is or as it would be loaded, binds n. */
  predicate TableBinds(s: State, loaded: Option<map<Name, Class>>, n: Name) {
    if s.classes.Some? then n in s.classes.value else loaded.Some? && n in loaded.value
  }

  predicate FreeFor(lock: Option<Thread>, t: Thread) { lock == None || lock == Some(t) }

  /** Thread t is in a call for n, nobody else holds a lock, and the table binds n. */
  ghost predicate Ready(s: State, t: Thread, n: Name, loaded: Option<map<Name, Class>>) {
    && WorksFor(PcOf(s, t), n) && TableBinds(s, loaded, n)
    && FreeFor(s.instanceLock, t) && FreeFor(s.classLock, t) && LocksOkFor(s, t)
  }

  /** What one step makes of it: the result, or a call with fewer steps left. */
  ghost predicate Nearer(s: State, s': State, t: Thread, n: Name, loaded: Option<map<Name, Class>>) {
    if PcOf(s', t).Done? then PcOf(s', t).name == n && s'.instanceLock == None && s'.classLock == None
    else Ready(s', t, n, loaded) && StepsLeft(PcOf(s', t)) < StepsLeft(PcOf(s, t))
  }

  lemma OuterNearer(s: State, t: Thread, n: Name, loaded: Option<map<Name, Class>>)
    requires ThreadOk(s, t) && Ready(s, t, n, loaded) && OuterPc(PcOf(s, t))
    ensures Nearer(s, StepOuter(s, t), t, n, loaded)
  {
  }

  lemma ClassesNearer(s: State, t: Thread, n: Name, loaded: Option<map<Name, Class>>)
    requires ThreadOk(s, t) && Ready(s, t, n, loaded) && ClassesPc(PcOf(s, t))
    ensures Nearer(s, StepClasses(s, t, loaded), t, n, loaded)
  {
  }

  lemma InnerNearer(s: State, t: Thread, n: Name, loaded: Option<map<Name, Class>>)
    requires ThreadOk(s, t) && Ready(s, t, n, loaded)
    requires !OuterPc(PcOf(s, t)) && !ClassesPc(PcOf(s, t)) && !CreatePc(PcOf(s, t))
    ensures Nearer(s, StepInner(s, t), t, n, loaded)
  {
  }

  lemma CreateNearer(s: State, t: Thread, n: Name, loaded: Option<map<Name, Class>>)
    requires ThreadOk(s, t) && Ready(s, t, n, loaded) && CreatePc(PcOf(s, t))
    ensures Nearer(s, StepCreate(s, t, true), t, n, loaded)
  {
  }

  lemma StepNearer(s: State, t: Thread, n: Name, loaded: Option<map<Name, Class>>)
    requires ThreadOk(s, t) && Ready(s, t, n, loaded)
    ensures Enabled(s, t, Go(loaded, true)) && Nearer(s, Step(s, t, Go(loaded, true)), t, n, loaded)
  {
    var pc := PcOf(s, t);
    if OuterPc(pc) {
      OuterNearer(s, t, n, loaded);
    } else if ClassesPc(pc) {
      ClassesNearer(s, t, n, loaded);
    } else if CreatePc(pc) {
      CreateNearer(s, t, n, loaded);
    } else {
      InnerNearer(s, t, n, loaded);
    }
  }

  /** `ss` are the states of thread t running alone from ss[0], with a load that yields `loaded` and working constructors. */
  ghost predicate IsSolo(ss: seq<State>, t: Thread, loaded: Option<map<Name, Class>>) {
    ss != [] && forall i :: 0 <= i < |ss| - 1 ==>
      Enabled(ss[i], t, Go(loaded, true)) && ss[i + 1] == Step(ss[i], t, Go(loaded, true))
  }

  ghost predicate Succeeds(ss: seq<State>, t: Thread, n: Name, loaded: Option<map<Name, Class>>)
    requires ss != []
  {
    var r := ss[|ss| - 1];
    && IsSolo(ss, t, loaded) && Inv(r)
    && PcOf(r, t).Done? && PcOf(r, t).name == n && Bound(r, n, PcOf(r, t).o)
    && r.instanceLock == None && r.classLock == None
  }

  lemma {:induction false} SoloSucceeds(s: State, t: Thread, n: Name, loaded: Option<map<Name, Class>>) returns (ss: seq<State>)
    requires Inv(s) && Ready(s, t, n, loaded)
    ensures ss != [] && ss[0] == s && |ss| - 1 <= StepsLeft(PcOf(s, t)) && Succeeds(ss, t, n, loaded)
    decreases StepsLeft(PcOf(s, t))
  {
    var s' := Step(s, t, Go(loaded, true));
    assert ThreadOk(s, t);
    StepNearer(s, t, n, loaded);
    StepKeeps(s, t, Go(loaded, true));
    if PcOf(s', t).Done? {
      ss := [s, s'];
      assert ThreadOk(s', t);
    } else {
      var rest := SoloSucceeds(s', t, n, loaded);
      ss := [s] + rest;
      assert ss[|ss| - 1] == rest[|rest| - 1];
      assert forall i :: 1 <= i < |ss| ==> ss[i] == rest[i - 1];
    }
  }

  /**
   From any reachable state in which no other thread holds a lock, a getJoin call for a bound name,
   at whatever point it stands, runs to its result within sixteen steps of its own and leaves both
   locks free.
   */
  lemma JoinSucceeds(states: seq<State>, steps: seq<(Thread, Choice)>, i: nat, t: Thread, n: Name, loaded: Option<map<Name, Class>>)
    returns (ss: seq<State>)
    requires IsRun(states, steps) && i < |states| && WorksFor(PcOf(states[i], t), n) && TableBinds(states[i], loaded, n)
    requires FreeFor(states[i].instanceLock, t) && FreeFor(states[i].classLock, t)
    ensures ss != [] && ss[0] == states[i] && |ss| <= 17 && Succeeds(ss, t, n, loaded)
  {
    RunKeeps(states, steps, i);
    RunLocks(states, steps, i);
    ss := SoloSucceeds(states[i], t, n, loaded);
  }

  /** A call for a name that is not blank starts such a run, whatever the thread did before. */
  lemma CallStarts(s: State, t: Thread, n: Name)
    requires Resting(PcOf(s, t)) && !Blank(n)
    ensures Enabled(s, t, Call(n)) && WorksFor(PcOf(Step(s, t, Call(n)), t), n)
    ensures Step(s, t, Call(n)) == s.(pcs := Step(s, t, Call(n)).pcs)
  {
  }

  /** From the first call on: a loader whose table binds n hands out an object for n. */
  lemma FirstJoin(t: Thread, n: Name, table: map<Name, Class>) returns (ss: seq<State>)
    requires !Blank(n) && n in table
    ensures ss != [] && ss[0] == Step(INITIAL, t, Call(n)) && |ss| <= 17 && Succeeds(ss, t, n, Some(table))
    ensures ss[|ss| - 1].classes == Some(table) && ss[|ss| - 1].made == [table[n]]
  {
    var states, steps := [INITIAL, Step(INITIAL, t, Call(n))], [(t, Call(n))];
    assert IsRun(states, steps);
    ss := JoinSucceeds(states, steps, 1, t, n, Some(table));
    SoloLoads(ss, t, Some(table));
    var r := ss[|ss| - 1];
    assert Bound(r, n, PcOf(r, t).o) && ClassOk(r, table[n]);
    SoloMakes(ss, t, Some(table));
    assert table[n] in r.made by { assert Created(r, table[n]) == 1; }
  }

  /** A thread alone fills the table with nothing but what it loads. */
  lemma {:induction false} SoloLoads(ss: seq<State>, t: Thread, loaded: Option<map<Name, Class>>)
    requires IsSolo(ss, t, loaded) && (ss[0].classes.None? || ss[0].classes == loaded)
    ensures ss[|ss| - 1].classes.None? || ss[|ss| - 1].classes == loaded
  {
    if |ss| > 1 {
      assert IsSolo(ss[..|ss| - 1], t, loaded);
      SoloLoads(ss[..|ss| - 1], t, loaded);
      StepLoads(ss[|ss| - 2], t, Go(loaded, true));
    }
  }

  lemma ClassesLoads(s: State, t: Thread, loaded: Option<map<Name, Class>>)
    requires ClassesPc(PcOf(s, t))
    ensures StepClasses(s, t, loaded).classes == if PcOf(s, t).LoadClasses? && loaded.Some? then loaded else s.classes
  {
  }

  lemma StepLoads(s: State, t: Thread, ch: Choice)
    requires Enabled(s, t, ch)
    ensures Step(s, t, ch).classes ==
            if ch.Go? && PcOf(s, t).LoadClasses? && ch.loaded.Some? then ch.loaded else s.classes
  {
    if ch.Go? && ClassesPc(PcOf(s, t)) {
      ClassesLoads(s, t, ch.loaded);
    }
  }

  /** At most one object is made by a call. */
  lemma {:induction false} SoloMakes(ss: seq<State>, t: Thread, loaded: Option<map<Name, Class>>)
    requires IsSolo(ss, t, loaded) && ss[0].made == []
    ensures |ss[|ss| - 1].made| <= 1
    ensures ss[|ss| - 1].made != [] ==> StepsLeft(PcOf(ss[|ss| - 1], t)) < 4
  {
    if |ss| > 1 {
      assert IsSolo(ss[..|ss| - 1], t, loaded);
      SoloMakes(ss[..|ss| - 1], t, loaded);
      StepAdvances(ss[|ss| - 2], t, Go(loaded, true));
      StepMakes(ss[|ss| - 2], t, Go(loaded, true));
    }
  }

  lemma StepMakes(s: State, t: Thread, ch: Choice)
    requires Enabled(s, t, ch)
    ensures Step(s, t, ch).made == s.made + if ch.Go? && ch.constructs && PcOf(s, t).Instantiate? then [PcOf(s, t).c] else []
  {
  }

  // ---------- getExtensionLoader ----------

  function LookupLeft(pc: LookupPc): nat {
    match pc
    case LGet(_) => 4
    case LNew(_) => 3
    case LPut(_, _) => 2
    case LReread(_) => 1
    case _ => 0
  }

  /** The interface a lookup is for. */
  predicate LooksUp(pc: LookupPc, i: Interface) {
    match pc
    case LGet(j) => j == i
    case LNew(j) => j == i
    case LPut(j, _) => j == i
    case LReread(j) => j == i
    case LDone(j, _) => j == i
    case _ => false
  }

  /**
   Lookups take no lock. In every interleaving each step of a lookup whose constructor works brings
   it nearer its end, which is a loader for its own interface; the steps of others do not touch it.
   */
  lemma LookupAdvances(r: Registry, t: Thread, u: Thread, i: Interface)
    requires RegistryOk(r) && LooksUp(LookupPcOf(r, t), i) && !LookupPcOf(r, t).LDone?
    ensures var r' := LookupStep(r, t, LGo(true));
            && LookupLeft(LookupPcOf(r', t)) < LookupLeft(LookupPcOf(r, t))
            && LooksUp(LookupPcOf(r', t), i)
            && (LookupLeft(LookupPcOf(r', t)) == 0 ==>
                  i in r'.loaders && LookupPcOf(r', t) == LDone(i, Some(r'.loaders[i])))
            && (u != t ==> LookupPcOf(r', u) == LookupPcOf(r, u))
  {
  }

  /** A lookup fails exactly if it names no extension point or the loader's constructor throws. */
  lemma LookupFailsIff(r: Registry, t: Thread, ch: LookupChoice)
    requires !LookupPcOf(r, t).LFailed?
    ensures LookupPcOf(LookupStep(r, t, ch), t).LFailed? <==>
            (ch.LCall? && !ch.valid) || (ch.LGo? && LookupPcOf(r, t).LNew? && !ch.constructs)
  {
  }
}
