/**
 The extension loader: double-checked locking over concurrent maps, as steps of any number of
 threads. Each step is one read or write of shared state, so every interleaving is a run.
 Extension constructors do not call back into the loader.
 */
module ExtensionLoader {
  import opened Options
  import opened Text

  type Thread = nat
  type Name = string
  type Class = nat
  type Object = nat
  type Holder = nat

  /** Who asked for the class table: getJoin inside its lock, or a direct caller. */
  datatype Cont = ForJoin(name: Name, h: Holder) | Alone

  /** Where a thread stands; the comments give the next access to shared state. */
  datatype Pc =
    | Idle
    | GetHolder(name: Name)                                // cachedInstances.get
    | PutHolder(name: Name)                                // cachedInstances.putIfAbsent
    | RereadHolder(name: Name)                             // cachedInstances.get
    | Check(name: Name, h: Holder)                         // objectHolder.getValue, no lock
    | Enter(name: Name, h: Holder)                         // synchronized (cachedInstances)
    | Recheck(name: Name, h: Holder)                       // objectHolder.getValue, locked
    | CheckClasses(k: Cont)                                // cachedClasses.getValue, no class lock
    | EnterClasses(k: Cont)                                // synchronized (cachedClasses)
    | RecheckClasses(k: Cont)                              // cachedClasses.getValue, locked
    | LoadClasses(k: Cont)                                 // loadExtensionClass, setValue
    | Lookup(name: Name, h: Holder)                        // classes.get(name)
    | ReadJoin(name: Name, h: Holder, c: Class)            // joinInstances.get
    | Instantiate(name: Name, h: Holder, c: Class)         // newInstance
    | PutJoin(name: Name, h: Holder, c: Class, o: Object)  // joinInstances.putIfAbsent
    | RereadJoin(name: Name, h: Holder, c: Class)          // joinInstances.get
    | SetHolder(name: Name, h: Holder, o: Object)          // objectHolder.setValue
    | Done(name: Name, o: Object)
    | Failed

  datatype State = State(
    instances: map<Name, Holder>,
    values: map<Holder, Object>,
    joins: map<Class, Object>,
    classes: Option<map<Name, Class>>,
    instanceLock: Option<Thread>,
    classLock: Option<Thread>,
    pcs: map<Thread, Pc>,
    holders: seq<Name>,            // holders allocated so far, with the name each was made for
    made: seq<Class>,              // extension objects created so far, with their classes
    returned: set<(Name, Object)>) // everything getJoin has returned

  const INITIAL: State := State(map[], map[], map[], None, None, None, map[], [], [], {})

  function PcOf(s: State, t: Thread): Pc {
    if t in s.pcs then s.pcs[t] else Idle
  }

  function At(s: State, t: Thread, pc: Pc): State { s.(pcs := s.pcs[t := pc]) }

  /** getJoin leaves its synchronized block. */
  function Leave(s: State, t: Thread, pc: Pc): State { At(s, t, pc).(instanceLock := None) }

  function Return(s: State, t: Thread, n: Name, o: Object): State {
    At(s, t, Done(n, o)).(returned := s.returned + {(n, o)})
  }

  /** The class table is known: go on with whoever asked for it. */
  function GotClasses(s: State, t: Thread, k: Cont): State {
    At(s, t, match k case ForJoin(n, h) => Lookup(n, h) case Alone => Idle)
  }

  /** What the environment decides: a new call, what loading yields, whether a constructor throws. */
  datatype Choice = Call(name: Name) | CallClasses | Go(loaded: Option<map<Name, Class>>, constructs: bool)

  predicate Resting(pc: Pc) { pc.Idle? || pc.Done? || pc.Failed? }

  predicate Enabled(s: State, t: Thread, ch: Choice) {
    var pc := PcOf(s, t);
    if !ch.Go? then Resting(pc)
    else
      && !Resting(pc)
      && (pc.Enter? ==> s.instanceLock == None)
      && (pc.EnterClasses? ==> s.classLock == None)
  }

  /** Steps of getJoin outside its lock. */
  function StepOuter(s: State, t: Thread): State {
    match PcOf(s, t)
    case GetHolder(n) =>
      if n in s.instances then At(s, t, Check(n, s.instances[n])) else At(s, t, PutHolder(n))
    case PutHolder(n) =>
      var s' := At(s, t, RereadHolder(n)).(holders := s.holders + [n]);
      if n in s.instances then s' else s'.(instances := s.instances[n := |s.holders|])
    case RereadHolder(n) =>
      if n in s.instances then At(s, t, Check(n, s.instances[n])) else At(s, t, Failed)
    case Check(n, h) =>
      if h in s.values then Return(s, t, n, s.values[h]) else At(s, t, Enter(n, h))
    case Enter(n, h) => At(s, t, Recheck(n, h)).(instanceLock := Some(t))
    case _ => s
  }

  /** getExtensionClasses; a failed load also leaves the enclosing getJoin. */
  function StepClasses(s: State, t: Thread, loaded: Option<map<Name, Class>>): State {
    match PcOf(s, t)
    case CheckClasses(k) => if s.classes.Some? then GotClasses(s, t, k) else At(s, t, EnterClasses(k))
    case EnterClasses(k) => At(s, t, RecheckClasses(k)).(classLock := Some(t))
    case RecheckClasses(k) =>
      if s.classes.Some? then GotClasses(s, t, k).(classLock := None) else At(s, t, LoadClasses(k))
    case LoadClasses(k) =>
      if loaded.Some? then GotClasses(s, t, k).(classes := loaded, classLock := None)
      else if k.ForJoin? then Leave(s, t, Failed).(classLock := None)
      else At(s, t, Failed).(classLock := None)
    case _ => s
  }

  /** Steps inside the lock that only look things up. */
  function StepInner(s: State, t: Thread): State {
    match PcOf(s, t)
    case Recheck(n, h) =>
      if h in s.values then Return(s, t, n, s.values[h]).(instanceLock := None)
      else At(s, t, CheckClasses(ForJoin(n, h)))
    case Lookup(n, h) =>
      if s.classes.Some? && n in s.classes.value then At(s, t, ReadJoin(n, h, s.classes.value[n]))
      else Leave(s, t, Failed)
    case ReadJoin(n, h, c) =>
      At(s, t, if c in s.joins then SetHolder(n, h, s.joins[c]) else Instantiate(n, h, c))
    case RereadJoin(n, h, c) =>
      if c in s.joins then At(s, t, SetHolder(n, h, s.joins[c])) else Leave(s, t, Failed)
    case _ => s
  }

  /** Steps inside the lock that create and file an instance. */
  function StepCreate(s: State, t: Thread, constructs: bool): State {
    match PcOf(s, t)
    case Instantiate(n, h, c) =>
      if constructs then At(s, t, PutJoin(n, h, c, |s.made|)).(made := s.made + [c])
      else Leave(s, t, Failed)
    case PutJoin(n, h, c, o) =>
      var s' := At(s, t, RereadJoin(n, h, c));
      if c in s.joins then s' else s'.(joins := s.joins[c := o])
    case SetHolder(n, h, o) =>
      Return(s, t, n, o).(values := s.values[h := o], instanceLock := None)
    case _ => s
  }

  function Step(s: State, t: Thread, ch: Choice): State {
    match ch
    case Call(n) => At(s, t, if Blank(n) then Failed else GetHolder(n))
    case CallClasses => At(s, t, CheckClasses(Alone))
    case Go(loaded, constructs) =>
      var pc := PcOf(s, t);
      if OuterPc(pc) then StepOuter(s, t)
      else if ClassesPc(pc) then StepClasses(s, t, loaded)
      else if CreatePc(pc) then StepCreate(s, t, constructs)
      else StepInner(s, t)
  }

  predicate OuterPc(pc: Pc) { pc.GetHolder? || pc.PutHolder? || pc.RereadHolder? || pc.Check? || pc.Enter? }

  predicate ClassesPc(pc: Pc) { pc.CheckClasses? || pc.EnterClasses? || pc.RecheckClasses? || pc.LoadClasses? }

  predicate CreatePc(pc: Pc) { pc.Instantiate? || pc.PutJoin? || pc.SetHolder? }

  // ---------- The invariant ----------

  /** Name `n` stands for object `o`: through its class, by the tables the loader keeps. */
  ghost predicate Bound(s: State, n: Name, o: Object) {
    && s.classes.Some? && n in s.classes.value
    && s.classes.value[n] in s.joins && s.joins[s.classes.value[n]] == o
  }

  ghost predicate HasHolder(s: State, n: Name, h: Holder) { n in s.instances && s.instances[n] == h }

  /** Thread t is inside getJoin's synchronized block, working for (n, h). */
  ghost predicate Inside(s: State, t: Thread, n: Name, h: Holder) {
    HasHolder(s, n, h) && s.instanceLock == Some(t)
  }

  ghost predicate ClassIs(s: State, n: Name, c: Class) {
    s.classes.Some? && n in s.classes.value && s.classes.value[n] == c
  }

  ghost predicate ContOk(s: State, t: Thread, k: Cont) {
    k.ForJoin? ==> Inside(s, t, k.name, k.h)
  }

  /** How often class `c` was successfully instantiated. */
  ghost function Created(s: State, c: Class): nat { multiset(s.made)[c] }

  ghost predicate Instance(s: State, o: Object, c: Class) { o < |s.made| && s.made[o] == c }

  ghost predicate ThreadOk(s: State, t: Thread) {
    match PcOf(s, t)
    case RereadHolder(n) => n in s.instances
    case Check(n, h) => HasHolder(s, n, h)
    case Enter(n, h) => HasHolder(s, n, h)
    case Recheck(n, h) => Inside(s, t, n, h)
    case CheckClasses(k) => ContOk(s, t, k)
    case EnterClasses(k) => ContOk(s, t, k)
    case RecheckClasses(k) => ContOk(s, t, k) && s.classLock == Some(t)
    case LoadClasses(k) => ContOk(s, t, k) && s.classLock == Some(t) && s.classes.None?
    case Lookup(n, h) => Inside(s, t, n, h) && s.classes.Some?
    case ReadJoin(n, h, c) => Inside(s, t, n, h) && ClassIs(s, n, c)
    case Instantiate(n, h, c) => Inside(s, t, n, h) && ClassIs(s, n, c) && c !in s.joins && Created(s, c) == 0
    case PutJoin(n, h, c, o) =>
      Inside(s, t, n, h) && ClassIs(s, n, c) && c !in s.joins && Created(s, c) == 1 && Instance(s, o, c)
    case RereadJoin(n, h, c) => Inside(s, t, n, h) && ClassIs(s, n, c) && c in s.joins
    case SetHolder(n, h, o) => Inside(s, t, n, h) && Bound(s, n, o)
    case Done(n, o) => (n, o) in s.returned
    case _ => true
  }

  /** An instantiated class is filed, or its instance is on its way there in the thread that holds the lock. */
  ghost predicate Filing(s: State, c: Class) {
    && s.instanceLock.Some?
    && PcOf(s, s.instanceLock.value).PutJoin? && PcOf(s, s.instanceLock.value).c == c
  }

  /** Name `n` has at most one holder, made for it, and a filled holder holds the object of its name. */
  ghost predicate NameOk(s: State, n: Name) {
    n in s.instances ==>
      var h := s.instances[n];
      && h < |s.holders| && s.holders[h] == n
      && (h in s.values ==> Bound(s, n, s.values[h]))
  }

  ghost predicate Tables(s: State) {
    && (forall n :: NameOk(s, n))
    && (forall h :: h in s.values ==> h < |s.holders|)
    && (forall p :: p in s.returned ==> Bound(s, p.0, p.1))
  }

  ghost predicate ClassOk(s: State, c: Class) {
    && Created(s, c) <= 1
    && (c in s.joins ==> Created(s, c) == 1 && Instance(s, s.joins[c], c))
    && (Created(s, c) > 0 && c !in s.joins ==> Filing(s, c))
  }

  ghost predicate Made(s: State) {
    forall c :: ClassOk(s, c)
  }

  ghost predicate Inv(s: State) {
    Tables(s) && Made(s) && forall t :: ThreadOk(s, t)
  }

  /** What a step of thread t leaves alone for the others. */
  ghost predicate Evolves(s: State, s': State, t: Thread) {
    && (forall u :: u != t ==> PcOf(s', u) == PcOf(s, u))
    && (forall n :: n in s.instances ==> n in s'.instances && s'.instances[n] == s.instances[n])
    && s.returned <= s'.returned
    && (s.classes.Some? ==> s'.classes == s.classes)
    && (s'.classes != s.classes ==> s.classLock == Some(t))
    && (forall c :: c in s.joins ==> c in s'.joins && s'.joins[c] == s.joins[c])
    && (s.instanceLock != Some(t) ==> s'.joins == s.joins && s'.made == s.made)
    && (s.instanceLock.Some? && s.instanceLock != Some(t) ==> s'.instanceLock == s.instanceLock)
    && (s.classLock.Some? && s.classLock != Some(t) ==> s'.classLock == s.classLock)
  }

  lemma OthersKeep(s: State, s': State, t: Thread, u: Thread)
    requires ThreadOk(s, u) && u != t && Evolves(s, s', t)
    ensures ThreadOk(s', u)
  {
  }

  /** A step that instantiates nothing and files nothing keeps the instance books. */
  lemma MadeFrame(s: State, s': State, t: Thread)
    requires Made(s) && Evolves(s, s', t) && !PcOf(s, t).PutJoin?
    requires s'.made == s.made && s'.joins == s.joins
    ensures Made(s')
  {
    forall c ensures ClassOk(s', c) {
      assert ClassOk(s, c);
    }
  }

  /** s' differs from s in control, in a first load of the classes, and in what getJoin has returned. */
  ghost predicate SameTables(s: State, s': State) {
    && s' == s.(classes := s'.classes, instanceLock := s'.instanceLock, classLock := s'.classLock,
                pcs := s'.pcs, returned := s'.returned)
    && (s.classes.Some? ==> s'.classes == s.classes)
    && (forall p :: p in s'.returned ==> p in s.returned || Bound(s, p.0, p.1))
  }

  lemma TablesFrame(s: State, s': State)
    requires Tables(s) && SameTables(s, s')
    ensures Tables(s')
  {
    forall n ensures NameOk(s', n) {
      assert NameOk(s, n);
    }
  }

  lemma OuterEvolves(s: State, t: Thread)
    requires ThreadOk(s, t)
    requires OuterPc(PcOf(s, t)) && (PcOf(s, t).Enter? ==> s.instanceLock == None)
    ensures Evolves(s, StepOuter(s, t), t)
  {
  }

  lemma OuterThread(s: State, t: Thread)
    requires ThreadOk(s, t) && Tables(s)
    requires OuterPc(PcOf(s, t)) && (PcOf(s, t).Enter? ==> s.instanceLock == None)
    ensures ThreadOk(StepOuter(s, t), t)
  {
  }

  /** A new holder is filed under a name that has none, or dropped. */
  lemma HolderTables(s: State, t: Thread)
    requires Tables(s) && PcOf(s, t).PutHolder?
    ensures Tables(StepOuter(s, t))
  {
    var s' := StepOuter(s, t);
    forall n ensures NameOk(s', n) {
      assert NameOk(s, n);
    }
  }

  lemma OuterTables(s: State, t: Thread)
    requires ThreadOk(s, t) && Tables(s)
    requires OuterPc(PcOf(s, t)) && (PcOf(s, t).Enter? ==> s.instanceLock == None)
    ensures Tables(StepOuter(s, t))
  {
    if PcOf(s, t).PutHolder? {
      HolderTables(s, t);
    } else {
      assert NameOk(s, PcOf(s, t).name);
      assert SameTables(s, StepOuter(s, t));
      TablesFrame(s, StepOuter(s, t));
    }
  }

  lemma OuterMade(s: State, t: Thread)
    requires ThreadOk(s, t) && Made(s)
    requires OuterPc(PcOf(s, t)) && (PcOf(s, t).Enter? ==> s.instanceLock == None)
    ensures Made(StepOuter(s, t))
  {
    var s' := StepOuter(s, t);
    assert Evolves(s, s', t) by { OuterEvolves(s, t); }
    assert s'.made == s.made && s'.joins == s.joins;
    MadeFrame(s, s', t);
  }

  lemma ClassesEvolves(s: State, t: Thread, loaded: Option<map<Name, Class>>)
    requires ThreadOk(s, t)
    requires ClassesPc(PcOf(s, t)) && (PcOf(s, t).EnterClasses? ==> s.classLock == None)
    ensures Evolves(s, StepClasses(s, t, loaded), t)
  {
  }

  lemma ClassesThread(s: State, t: Thread, loaded: Option<map<Name, Class>>)
    requires ThreadOk(s, t)
    requires ClassesPc(PcOf(s, t)) && (PcOf(s, t).EnterClasses? ==> s.classLock == None)
    ensures ThreadOk(StepClasses(s, t, loaded), t)
  {
  }

  lemma ClassesTables(s: State, t: Thread, loaded: Option<map<Name, Class>>)
    requires ThreadOk(s, t) && Tables(s)
    requires ClassesPc(PcOf(s, t)) && (PcOf(s, t).EnterClasses? ==> s.classLock == None)
    ensures Tables(StepClasses(s, t, loaded))
  {
    var s' := StepClasses(s, t, loaded);
    assert SameTables(s, s');
    TablesFrame(s, s');
  }

  lemma ClassesMade(s: State, t: Thread, loaded: Option<map<Name, Class>>)
    requires ThreadOk(s, t) && Made(s)
    requires ClassesPc(PcOf(s, t)) && (PcOf(s, t).EnterClasses? ==> s.classLock == None)
    ensures Made(StepClasses(s, t, loaded))
  {
    var s' := StepClasses(s, t, loaded);
    assert Evolves(s, s', t) by { ClassesEvolves(s, t, loaded); }
    assert s'.made == s.made && s'.joins == s.joins;
    MadeFrame(s, s', t);
  }

  lemma InnerEvolves(s: State, t: Thread)
    requires ThreadOk(s, t)
    requires !OuterPc(PcOf(s, t)) && !ClassesPc(PcOf(s, t)) && !CreatePc(PcOf(s, t))
    ensures Evolves(s, StepInner(s, t), t)
  {
  }

  lemma InnerThread(s: State, t: Thread)
    requires ThreadOk(s, t) && Tables(s) && Made(s)
    requires !OuterPc(PcOf(s, t)) && !ClassesPc(PcOf(s, t)) && !CreatePc(PcOf(s, t))
    ensures ThreadOk(StepInner(s, t), t)
  {
    if PcOf(s, t).ReadJoin? {
      assert ClassOk(s, PcOf(s, t).c);
    }
  }

  lemma InnerTables(s: State, t: Thread)
    requires ThreadOk(s, t) && Tables(s)
    requires !OuterPc(PcOf(s, t)) && !ClassesPc(PcOf(s, t)) && !CreatePc(PcOf(s, t))
    ensures Tables(StepInner(s, t))
  {
    var s' := StepInner(s, t);
    if PcOf(s, t).Recheck? {
      assert NameOk(s, PcOf(s, t).name);
    }
    forall n ensures NameOk(s', n) {
      assert NameOk(s, n);
    }
  }

  lemma InnerMade(s: State, t: Thread)
    requires ThreadOk(s, t) && Made(s)
    requires !OuterPc(PcOf(s, t)) && !ClassesPc(PcOf(s, t)) && !CreatePc(PcOf(s, t))
    ensures Made(StepInner(s, t))
  {
    var s' := StepInner(s, t);
    assert Evolves(s, s', t) by { InnerEvolves(s, t); }
    assert s'.made == s.made && s'.joins == s.joins;
    MadeFrame(s, s', t);
  }

  lemma CreateEvolves(s: State, t: Thread, constructs: bool)
    requires ThreadOk(s, t)
    requires CreatePc(PcOf(s, t))
    ensures Evolves(s, StepCreate(s, t, constructs), t)
  {
  }

  lemma CreateThread(s: State, t: Thread, constructs: bool)
    requires ThreadOk(s, t) && Made(s)
    requires CreatePc(PcOf(s, t))
    ensures ThreadOk(StepCreate(s, t, constructs), t)
  {
    var pc := PcOf(s, t);
    if pc.Instantiate? {
      assert multiset(s.made + [pc.c]) == multiset(s.made) + multiset{pc.c};
    }
  }

  lemma CreateTables(s: State, t: Thread, constructs: bool)
    requires ThreadOk(s, t) && Tables(s)
    requires CreatePc(PcOf(s, t))
    ensures Tables(StepCreate(s, t, constructs))
  {
    var s' := StepCreate(s, t, constructs);
    assert NameOk(s, PcOf(s, t).name);
    forall n ensures NameOk(s', n) {
      assert NameOk(s, n);
    }
  }

  lemma CreateMade(s: State, t: Thread, constructs: bool)
    requires ThreadOk(s, t) && Made(s)
    requires CreatePc(PcOf(s, t))
    ensures Made(StepCreate(s, t, constructs))
  {
    var s', pc := StepCreate(s, t, constructs), PcOf(s, t);
    if pc.Instantiate? {
      assert multiset(s.made + [pc.c]) == multiset(s.made) + multiset{pc.c};
    }
    forall c ensures ClassOk(s', c) {
      assert ClassOk(s, c);
    }
  }

  lemma StepEvolves(s: State, t: Thread, ch: Choice)
    requires ThreadOk(s, t) && Enabled(s, t, ch)
    ensures Evolves(s, Step(s, t, ch), t)
  {
    var pc := PcOf(s, t);
    if ch.Go? {
      if OuterPc(pc) {
        OuterEvolves(s, t);
      } else if ClassesPc(pc) {
        ClassesEvolves(s, t, ch.loaded);
      } else if CreatePc(pc) {
        CreateEvolves(s, t, ch.constructs);
      } else {
        InnerEvolves(s, t);
      }
    }
  }

  lemma StepBooks(s: State, t: Thread, ch: Choice)
    requires ThreadOk(s, t) && Tables(s) && Made(s) && Enabled(s, t, ch)
    ensures Tables(Step(s, t, ch)) && Made(Step(s, t, ch)) && ThreadOk(Step(s, t, ch), t)
  {
    var pc := PcOf(s, t);
    if !ch.Go? {
      StepEvolves(s, t, ch);
      MadeFrame(s, Step(s, t, ch), t);
      forall n ensures NameOk(Step(s, t, ch), n) {
        assert NameOk(s, n);
      }
    } else if OuterPc(pc) {
      OuterThread(s, t); OuterTables(s, t); OuterMade(s, t);
    } else if ClassesPc(pc) {
      ClassesThread(s, t, ch.loaded); ClassesTables(s, t, ch.loaded); ClassesMade(s, t, ch.loaded);
    } else if CreatePc(pc) {
      CreateThread(s, t, ch.constructs); CreateTables(s, t, ch.constructs); CreateMade(s, t, ch.constructs);
    } else {
      InnerThread(s, t); InnerTables(s, t); InnerMade(s, t);
    }
  }

  lemma StepKeeps(s: State, t: Thread, ch: Choice)
    requires Inv(s) && Enabled(s, t, ch)
    ensures Inv(Step(s, t, ch)) && Evolves(s, Step(s, t, ch), t)
  {
    var s' := Step(s, t, ch);
    assert ThreadOk(s, t);
    StepEvolves(s, t, ch);
    StepBooks(s, t, ch);
    forall u ensures ThreadOk(s', u) {
      if u != t {
        OthersKeep(s, s', t, u);
      }
    }
  }

  // ---------- Theorems over every interleaving ----------

  /** A run: at each point some thread takes an enabled step. */
  ghost predicate IsRun(states: seq<State>, steps: seq<(Thread, Choice)>) {
    && |states| == |steps| + 1
    && states[0] == INITIAL
    && forall i {:trigger steps[i]} :: 0 <= i < |steps| ==>
         Enabled(states[i], steps[i].0, steps[i].1) && states[i + 1] == Step(states[i], steps[i].0, steps[i].1)
  }

  lemma {:induction false} RunKeeps(states: seq<State>, steps: seq<(Thread, Choice)>, i: nat)
    requires IsRun(states, steps) && i < |states|
    ensures Inv(states[i])
  {
    if i > 0 {
      RunKeeps(states, steps, i - 1);
      StepKeeps(states[i - 1], steps[i - 1].0, steps[i - 1].1);
    }
  }

  /** The tables only grow, and a loaded class table is never replaced. */
  lemma {:induction false} RunGrows(states: seq<State>, steps: seq<(Thread, Choice)>, i: nat, j: nat)
    requires IsRun(states, steps) && i <= j < |states|
    ensures states[i].classes.Some? ==> states[j].classes == states[i].classes
    ensures forall c :: c in states[i].joins ==> c in states[j].joins && states[j].joins[c] == states[i].joins[c]
    ensures states[i].returned <= states[j].returned
    decreases j
  {
    if i < j {
      RunGrows(states, steps, i, j - 1);
      RunKeeps(states, steps, j - 1);
      StepKeeps(states[j - 1], steps[j - 1].0, steps[j - 1].1);
    }
  }

  /** Two successful getJoin calls with one name, at any times in any threads, give one object. */
  lemma SameNameSameObject(states: seq<State>, steps: seq<(Thread, Choice)>, i: nat, j: nat, n: Name, o: Object, p: Object)
    requires IsRun(states, steps) && i < |states| && j < |states|
    requires (n, o) in states[i].returned && (n, p) in states[j].returned
    ensures o == p
  {
    var k := if i < j then j else i;
    RunGrows(states, steps, i, k);
    RunGrows(states, steps, j, k);
    RunKeeps(states, steps, k);
    assert Bound(states[k], n, o) && Bound(states[k], n, p);
  }

  /** Two names share an object exactly when they are bound to one class. */
  lemma SameClassSameObject(states: seq<State>, steps: seq<(Thread, Choice)>, i: nat, n: Name, m: Name, o: Object, p: Object)
    requires IsRun(states, steps) && i < |states|
    requires (n, o) in states[i].returned && (m, p) in states[i].returned
    ensures states[i].classes.Some? && n in states[i].classes.value && m in states[i].classes.value
    ensures o == p <==> states[i].classes.value[n] == states[i].classes.value[m]
  {
    RunKeeps(states, steps, i);
    assert Bound(states[i], n, o) && Bound(states[i], m, p);
    var s := states[i];
    assert ClassOk(s, s.classes.value[n]) && ClassOk(s, s.classes.value[m]);
  }

  /** Each class is successfully instantiated at most once, and what it yields is kept for ever. */
  lemma OneInstancePerClass(states: seq<State>, steps: seq<(Thread, Choice)>, i: nat, c: Class)
    requires IsRun(states, steps) && i < |states|
    ensures Created(states[i], c) <= 1
    ensures Created(states[i], c) == 1 && states[i].instanceLock == None ==> c in states[i].joins
  {
    RunKeeps(states, steps, i);
    assert ClassOk(states[i], c);
  }

  /** A thread whose call has returned holds the object its name stands for, for ever after. */
  lemma DoneIsBound(states: seq<State>, steps: seq<(Thread, Choice)>, i: nat, j: nat, t: Thread)
    requires IsRun(states, steps) && i <= j < |states| && PcOf(states[i], t).Done?
    ensures Bound(states[j], PcOf(states[i], t).name, PcOf(states[i], t).o)
  {
    RunKeeps(states, steps, i);
    assert ThreadOk(states[i], t);
    RunGrows(states, steps, i, j);
    RunKeeps(states, steps, j);
  }

  // ---------- getExtensionLoader ----------

  type Interface = nat
  type Loader = nat

  datatype LookupPc =
    | LIdle
    | LGet(i: Interface)               // LOADERS.get
    | LNew(i: Interface)               // new ExtensionLoader
    | LPut(i: Interface, l: Loader)    // LOADERS.putIfAbsent
    | LReread(i: Interface)            // LOADERS.get
    | LDone(i: Interface, got: Option<Loader>)
    | LFailed

  datatype Registry = Registry(
    loaders: map<Interface, Loader>,
    pcs: map<Thread, LookupPc>,
    built: nat,                                // loader objects constructed so far
    handedOut: set<(Interface, Loader)>)

  /** A call is rejected unless it names an interface annotated as an extension point; a constructor may throw. */
  datatype LookupChoice = LCall(i: Interface, valid: bool) | LGo(constructs: bool)

  function LookupPcOf(r: Registry, t: Thread): LookupPc {
    if t in r.pcs then r.pcs[t] else LIdle
  }

  function LookupAt(r: Registry, t: Thread, pc: LookupPc): Registry { r.(pcs := r.pcs[t := pc]) }

  function HandOut(r: Registry, t: Thread, i: Interface): Registry {
    if i in r.loaders then LookupAt(r, t, LDone(i, Some(r.loaders[i]))).(handedOut := r.handedOut + {(i, r.loaders[i])})
    else LookupAt(r, t, LDone(i, None))
  }

  function LookupStep(r: Registry, t: Thread, ch: LookupChoice): Registry {
    match ch
    case LCall(i, valid) => LookupAt(r, t, if valid then LGet(i) else LFailed)
    case LGo(constructs) =>
      match LookupPcOf(r, t)
      case LGet(i) => if i in r.loaders then HandOut(r, t, i) else LookupAt(r, t, LNew(i))
      case LNew(i) =>
        if constructs then LookupAt(r, t, LPut(i, r.built)).(built := r.built + 1) else LookupAt(r, t, LFailed)
      case LPut(i, l) =>
        var r' := LookupAt(r, t, LReread(i));
        if i in r.loaders then r' else r'.(loaders := r.loaders[i := l])
      case LReread(i) => HandOut(r, t, i)
      case _ => r
  }

  ghost predicate IsLookupRun(rs: seq<Registry>, steps: seq<(Thread, LookupChoice)>) {
    && |rs| == |steps| + 1
    && rs[0] == Registry(map[], map[], 0, {})
    && forall i {:trigger steps[i]} :: 0 <= i < |steps| ==> rs[i + 1] == LookupStep(rs[i], steps[i].0, steps[i].1)
  }

  /** What is handed out is what is filed. */
  ghost predicate RegistryOk(r: Registry) {
    && (forall p :: p in r.handedOut ==> p.0 in r.loaders && r.loaders[p.0] == p.1)
    && (forall t :: LookupPcOf(r, t).LReread? ==> LookupPcOf(r, t).i in r.loaders)
    && (forall t :: LookupPcOf(r, t).LDone? ==>
         LookupPcOf(r, t).got.Some? && (LookupPcOf(r, t).i, LookupPcOf(r, t).got.value) in r.handedOut)
  }

  lemma LookupStepKeeps(r: Registry, t: Thread, ch: LookupChoice)
    requires RegistryOk(r)
    ensures RegistryOk(LookupStep(r, t, ch))
    ensures forall i :: i in r.loaders ==> i in LookupStep(r, t, ch).loaders && LookupStep(r, t, ch).loaders[i] == r.loaders[i]
    ensures r.handedOut <= LookupStep(r, t, ch).handedOut
  {
    var r' := LookupStep(r, t, ch);
    assert forall u :: u != t ==> LookupPcOf(r', u) == LookupPcOf(r, u);
  }

  lemma {:induction false} LookupRunKeeps(rs: seq<Registry>, steps: seq<(Thread, LookupChoice)>, i: nat, j: nat)
    requires IsLookupRun(rs, steps) && i <= j < |rs|
    ensures RegistryOk(rs[j]) && rs[i].handedOut <= rs[j].handedOut
    decreases j
  {
    if j > 0 {
      LookupRunKeeps(rs, steps, if i < j then i else i - 1, j - 1);
      LookupStepKeeps(rs[j - 1], steps[j - 1].0, steps[j - 1].1);
    }
  }

  /** All callers for one interface get one loader, and no call returns without one. */
  lemma OneLoaderPerInterface(rs: seq<Registry>, steps: seq<(Thread, LookupChoice)>, i: nat, j: nat, t: Thread, u: Thread)
    requires IsLookupRun(rs, steps) && i <= j < |rs|
    requires LookupPcOf(rs[i], t).LDone? && LookupPcOf(rs[j], u).LDone?
    ensures LookupPcOf(rs[i], t).got.Some?
    ensures LookupPcOf(rs[i], t).i == LookupPcOf(rs[j], u).i ==> LookupPcOf(rs[i], t).got == LookupPcOf(rs[j], u).got
  {
    LookupRunKeeps(rs, steps, i, i);
    LookupRunKeeps(rs, steps, i, j);
  }
}
