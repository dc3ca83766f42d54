/**
 The HTTP long-polling protocol: clients parked in a bounded queue, a timeout per client,
 and data-change tasks that answer the queue directly or through views of a drained list.

 All tasks run on one scheduler thread, so a task is one atomic step. The step functions below
 are the specification; class Listener at the end is the imperative code proved against them.
 */
module LongPolling {

  /** The identity of one LongPollingClient object. */
  type Client = nat

  const CAPACITY: nat := 1024

  /** A sub-list view of a drained client list, waiting to be run by the scheduler. */
  datatype BatchView = BatchView(list: nat, members: seq<Client>)

  datatype State = State(
    known: set<Client>,        // every request seen so far
    submitted: set<Client>,    // handed to the scheduler, run() not executed yet
    parked: set<Client>,       // run() has been executed
    queue: seq<Client>,        // the bounded queue of blocked clients
    live: set<Client>,         // timeouts that are scheduled and neither fired nor cancelled
    sent: multiset<Client>,    // how often each client has been answered
    broken: set<Client>,       // clients whose timeout task threw while comparing md5s
    batches: seq<BatchView>,   // views scheduled and not run yet
    lists: nat,                // number of lists drained so far
    touched: map<nat, seq<Client>>,  // drained lists modified since their views were taken, with the view that did it
    served: multiset<nat>,           // how many answers went out through each drained list
    reached: set<(nat, Client)>)     // which clients they went to

  /**
   One task of the protocol. `strict` says whether completing an already completed request
   throws, which is up to the servlet container; `throws` whether the md5 comparison throws.
   */
  datatype Action =
    | Request(c: Client, changed: bool)
    | Park(c: Client)
    | DataChange(strict: bool)
    | RunBatch(k: nat, strict: bool)
    | Timeout(c: Client, throws: bool)

  const INITIAL: State :=
    State({}, {}, {}, [], {}, multiset{}, {}, [], 0, map[], multiset{}, {})

  /** sendResponse: cancel the timeout, write the answer, complete the request. */
  function Send(s: State, c: Client): State {
    s.(live := s.live - {c}, sent := s.sent + multiset{c})
  }

  /** sendResponse to a client of a drained list. */
  function SendThrough(s: State, list: nat, c: Client): State {
    Send(s, c).(served := s.served + multiset{list}, reached := s.reached + {(list, c)})
  }

  /** doRun over the client queue itself. */
  function RunDirect(s: State, strict: bool): State
    decreases |s.queue|
  {
    if s.queue == [] then s
    else
      var c := s.queue[0];
      var s' := Send(s.(queue := s.queue[1..]), c);
      if strict && c in s.sent then s' else RunDirect(s', strict)
  }

  /** doRun over a view of a drained list. */
  function RunView(s: State, list: nat, members: seq<Client>, strict: bool): State
    decreases |members|
  {
    if members == [] then s
    else
      var c := members[0];
      var s' := SendThrough(s, list, c);
      if strict && c in s.sent then s' else RunView(s', list, members[1..], strict)
  }

  /** Lists.partition: consecutive views of at most `size` clients. */
  function Partition(list: nat, q: seq<Client>, size: nat): seq<BatchView>
    requires size > 0
    decreases |q|
  {
    if |q| <= size then [BatchView(list, q)]
    else [BatchView(list, q[..size])] + Partition(list, q[size..], size)
  }

  lemma PartitionStep(views: seq<BatchView>, list: nat, q: seq<Client>, size: nat)
    requires 0 < size < |q|
    ensures views + Partition(list, q, size) ==
            views + [BatchView(list, q[..size])] + Partition(list, q[size..], size)
  {
  }

  function Without(q: seq<Client>, c: Client): seq<Client> {
    if q == [] then []
    else if q[0] == c then q[1..]
    else [q[0]] + Without(q[1..], c)
  }

  predicate Enabled(s: State, a: Action) {
    match a
    case Request(c, _) => c !in s.known
    case Park(c) => c in s.submitted
    case DataChange(_) => true
    case RunBatch(k, _) => k < |s.batches|
    case Timeout(c, _) => c in s.live
  }

  function ApplyPark(s: State, c: Client): State {
    s.(submitted := s.submitted - {c}, parked := s.parked + {c}, live := s.live + {c},
       queue := if |s.queue| < CAPACITY then s.queue + [c] else s.queue)
  }

  function ApplyDataChange(s: State, batchSize: int, strict: bool): State {
    if |s.queue| <= batchSize then RunDirect(s, strict)
    else if batchSize <= 0 then s.(queue := [])
    else s.(queue := [], lists := s.lists + 1,
            batches := s.batches + Partition(s.lists, s.queue, batchSize))
  }

  /** A view of a list that was modified behind it fails before it yields a client. */
  function ApplyBatch(s: State, k: nat, strict: bool): State
    requires k < |s.batches|
  {
    var b := s.batches[k];
    var rest := s.(batches := s.batches[..k] + s.batches[k + 1..]);
    if b.list in s.touched || b.members == [] then rest
    else RunView(rest.(touched := s.touched[b.list := b.members]), b.list, b.members, strict)
  }

  function ApplyTimeout(s: State, c: Client, throws: bool): State {
    var fired := s.(live := s.live - {c}, queue := Without(s.queue, c));
    if throws then fired.(broken := s.broken + {c}) else Send(fired, c)
  }

  function Apply(s: State, a: Action, batchSize: int): State
    requires Enabled(s, a)
  {
    match a
    case Request(c, changed) =>
      if changed then s.(known := s.known + {c}, sent := s.sent + multiset{c})
      else s.(known := s.known + {c}, submitted := s.submitted + {c})
    case Park(c) => ApplyPark(s, c)
    case DataChange(strict) => ApplyDataChange(s, batchSize, strict)
    case RunBatch(k, strict) => ApplyBatch(s, k, strict)
    case Timeout(c, throws) => ApplyTimeout(s, c, throws)
  }

  /** `states` is a run of the protocol under the actions `acts`, from the empty server. */
  ghost predicate IsRun(states: seq<State>, acts: seq<Action>, batchSize: int) {
    && |states| == |acts| + 1
    && states[0] == INITIAL
    && forall i {:trigger acts[i]} :: 0 <= i < |acts| ==>
         Enabled(states[i], acts[i]) && states[i + 1] == Apply(states[i], acts[i], batchSize)
  }

  lemma RunExtends(states: seq<State>, acts: seq<Action>, batchSize: int, a: Action)
    requires IsRun(states, acts, batchSize) && Enabled(states[|acts|], a)
    ensures IsRun(states + [Apply(states[|acts|], a, batchSize)], acts + [a], batchSize)
  {
  }

  // ---------- The invariant ----------

  /** All clients waiting in scheduled views, with multiplicity. */
  ghost function Bag(bs: seq<BatchView>): multiset<Client> {
    if bs == [] then multiset{} else multiset(bs[0].members) + Bag(bs[1..])
  }

  lemma {:induction false} BagConcat(a: seq<BatchView>, b: seq<BatchView>)
    ensures Bag(a + b) == Bag(a) + Bag(b)
  {
    if a == [] {
      assert a + b == b;
    } else {
      assert (a + b)[1..] == a[1..] + b;
      BagConcat(a[1..], b);
    }
  }

  lemma {:induction false} BagRemove(bs: seq<BatchView>, k: nat)
    requires k < |bs|
    ensures Bag(bs) == Bag(bs[..k] + bs[k + 1..]) + multiset(bs[k].members)
  {
    var rest := bs[..k] + bs[k + 1..];
    if k == 0 {
      assert rest == bs[1..];
    } else {
      BagRemove(bs[1..], k - 1);
      assert rest[1..] == bs[1..][..k - 1] + bs[1..][k..];
      assert rest[0] == bs[0];
    }
  }

  /** A partition keeps every client exactly as often as the drained list had it. */
  lemma {:induction false} PartitionBag(list: nat, q: seq<Client>, size: nat)
    requires size > 0
    ensures Bag(Partition(list, q, size)) == multiset(q)
    ensures forall b :: b in Partition(list, q, size) ==> b.list == list && |b.members| <= size
    decreases |q|
  {
    if |q| <= size {
      assert Bag([BatchView(list, q)]) == multiset(q);
    } else {
      PartitionBag(list, q[size..], size);
      assert q == q[..size] + q[size..];
      BagConcat([BatchView(list, q[..size])], Partition(list, q[size..], size));
    }
  }

  /**
   The books of one client. `hand` counts its occurrences in the rest of a view that is being
   run: such a client has left the scheduled views and may still be answered by the view.
   */
  ghost predicate Account(s: State, c: Client, hand: nat) {
    var q, b, n := multiset(s.queue)[c], Bag(s.batches)[c], s.sent[c];
    && (c in s.submitted ==> c in s.known && c !in s.parked && n == 0)
    && (c in s.parked || n > 0 ==> c in s.known)
    && (c in s.live ==> c in s.parked && n == 0)
    && (q > 0 ==> c in s.live)
    && (b + hand > 0 ==> c in s.parked)
    && q + b + hand <= 1
    && n + b + hand <= 2
    && (c in s.broken ==> c in s.parked && c !in s.live)
    && (c in s.parked ==> n > 0 || c in s.live || c in s.broken)
    && (n > 1 ==> s.lists > 0)
    && (b + hand > 0 ==> s.lists > 0)
  }

  ghost predicate Accounts(s: State) {
    forall c :: Account(s, c, 0)
  }

  /** No drained list serves more than one view's worth of clients. */
  ghost predicate Lists(s: State, batchSize: int) {
    && (forall b :: b in s.batches ==> b.list < s.lists && |b.members| <= batchSize)
    && (forall l :: l in s.touched ==> l < s.lists)
    && (forall l :: l in s.touched ==> |s.touched[l]| <= batchSize)
    && (forall l :: l !in s.touched ==> s.served[l] == 0)
    && (forall p :: p in s.reached ==> p.0 in s.touched && p.1 in s.touched[p.0])
    && (forall l :: s.served[l] == 0 || s.served[l] <= batchSize)
  }

  lemma HeadAndTail(q: seq<Client>, c: Client)
    requires q != []
    ensures multiset(q)[c] == multiset(q[1..])[c] + (if q[0] == c then 1 else 0)
  {
    assert q == [q[0]] + q[1..];
  }

  /** One answer of the direct path keeps the books, and the client it goes to was unanswered. */
  lemma DirectStep(s: State)
    requires Accounts(s) && s.queue != []
    ensures s.queue[0] !in s.sent
    ensures Accounts(Send(s.(queue := s.queue[1..]), s.queue[0]))
  {
    var h := s.queue[0];
    var s' := Send(s.(queue := s.queue[1..]), h);
    assert Account(s, h, 0) && h in s.queue;
    forall c ensures Account(s', c, 0) {
      assert Account(s, c, 0);
      HeadAndTail(s.queue, c);
    }
  }

  lemma QueueSplits(live: set<Client>, sent: multiset<Client>, q: seq<Client>)
    requires q != []
    ensures live - (set c | c in q) == (live - {q[0]}) - (set c | c in q[1..])
    ensures sent + multiset(q) == (sent + multiset{q[0]}) + multiset(q[1..])
  {
    assert q == [q[0]] + q[1..];
  }

  /** A direct notification answers exactly the queued clients and empties the queue. */
  lemma {:induction false} DirectEffect(s: State, strict: bool)
    requires Accounts(s)
    ensures RunDirect(s, strict) ==
              s.(queue := [], live := s.live - (set c | c in s.queue), sent := s.sent + multiset(s.queue))
    decreases |s.queue|
  {
    if s.queue == [] {
      assert s.live - (set c | c in s.queue) == s.live;
    } else {
      DirectStep(s);
      DirectEffect(Send(s.(queue := s.queue[1..]), s.queue[0]), strict);
      QueueSplits(s.live, s.sent, s.queue);
    }
  }

  lemma DirectKeeps(s: State, strict: bool)
    requires Accounts(s)
    ensures Accounts(RunDirect(s, strict))
  {
    DirectEffect(s, strict);
    forall c ensures Account(RunDirect(s, strict), c, 0) {
      assert Account(s, c, 0);
      assert c in s.queue <==> multiset(s.queue)[c] > 0;
    }
  }

  /** Running a view keeps the books of each client, however early the view fails. */
  lemma {:induction false} ViewAccount(s: State, list: nat, members: seq<Client>, strict: bool, c: Client)
    requires Account(s, c, multiset(members)[c])
    ensures Account(RunView(s, list, members, strict), c, 0)
    decreases |members|
  {
    if members != [] {
      HeadAndTail(members, c);
      var h := members[0];
      var s' := SendThrough(s, list, h);
      if !(strict && h in s.sent) {
        ViewAccount(s', list, members[1..], strict, c);
      }
    }
  }

  lemma {:induction false} ViewFrame(s: State, list: nat, members: seq<Client>, strict: bool)
    ensures var r := RunView(s, list, members, strict);
            && r == s.(live := r.live, sent := r.sent, served := r.served, reached := r.reached) && s.sent <= r.sent
            && s.served[list] <= r.served[list] <= s.served[list] + |members|
            && (forall l :: l != list ==> r.served[l] == s.served[l])
            && (forall p :: p in r.reached ==> p in s.reached || (p.0 == list && p.1 in members))
    decreases |members|
  {
    if members != [] {
      ViewFrame(SendThrough(s, list, members[0]), list, members[1..], strict);
    }
  }

  /** Once one view of a drained list has run, the other views of that list answer nobody. */
  lemma StaleViewAnswersNobody(s: State, k: nat, strict: bool)
    requires k < |s.batches| && s.batches[k].list in s.touched
    ensures var r := ApplyBatch(s, k, strict);
            r == s.(batches := r.batches) && |r.batches| == |s.batches| - 1
  {
  }

  /** The state in which the k-th view starts to run. */
  function Started(s: State, k: nat): State
    requires k < |s.batches|
  {
    s.(batches := s.batches[..k] + s.batches[k + 1..], touched := s.touched[s.batches[k].list := s.batches[k].members])
  }

  lemma BatchAccounts(s: State, k: nat, strict: bool)
    requires Accounts(s) && k < |s.batches|
    ensures Accounts(ApplyBatch(s, k, strict))
  {
    var b, run, r := s.batches[k], Started(s, k), ApplyBatch(s, k, strict);
    BagRemove(s.batches, k);
    forall c ensures Account(r, c, 0) {
      assert Account(s, c, 0);
      assert Account(run, c, multiset(b.members)[c]);
      ViewAccount(run, b.list, b.members, strict, c);
    }
  }

  lemma BatchLists(s: State, k: nat, strict: bool, batchSize: int)
    requires Lists(s, batchSize) && k < |s.batches|
    ensures Lists(ApplyBatch(s, k, strict), batchSize)
  {
    var b, run := s.batches[k], Started(s, k);
    assert b in s.batches;
    assert forall v :: v in run.batches ==> v in s.batches;
    if b.list !in s.touched && b.members != [] {
      var r := RunView(run, b.list, b.members, strict);
      ViewFrame(run, b.list, b.members, strict);
      forall p | p in r.reached ensures p.0 in r.touched && p.1 in r.touched[p.0] {
      }
      forall l ensures r.served[l] == 0 || r.served[l] <= batchSize {
      }
    }
  }

  lemma {:induction false} WithoutBag(q: seq<Client>, c: Client)
    ensures multiset(Without(q, c)) == multiset(q) - multiset{c}
  {
    if q != [] {
      assert q == [q[0]] + q[1..];
      assert multiset(q) == multiset{q[0]} + multiset(q[1..]);
      if q[0] != c {
        WithoutBag(q[1..], c);
        assert multiset([q[0]] + Without(q[1..], c)) == multiset{q[0]} + multiset(Without(q[1..], c));
      }
    }
  }

  lemma DataChangeKeeps(s: State, strict: bool, batchSize: int)
    requires Accounts(s) && Lists(s, batchSize)
    ensures Accounts(ApplyDataChange(s, batchSize, strict))
    ensures Lists(ApplyDataChange(s, batchSize, strict), batchSize)
  {
    if |s.queue| <= batchSize {
      DirectKeeps(s, strict);
      DirectEffect(s, strict);
    } else {
      if batchSize > 0 {
        PartitionBag(s.lists, s.queue, batchSize);
        BagConcat(s.batches, Partition(s.lists, s.queue, batchSize));
      }
      forall c ensures Account(ApplyDataChange(s, batchSize, strict), c, 0) {
        assert Account(s, c, 0);
      }
    }
  }

  lemma TimeoutKeeps(s: State, c: Client, throws: bool)
    requires Accounts(s) && c in s.live
    ensures Accounts(ApplyTimeout(s, c, throws))
  {
    WithoutBag(s.queue, c);
    assert Account(s, c, 0);
    forall d ensures Account(ApplyTimeout(s, c, throws), d, 0) {
      assert Account(s, d, 0);
    }
  }

  lemma ParkKeeps(s: State, c: Client)
    requires Accounts(s) && c in s.submitted
    ensures Accounts(ApplyPark(s, c))
  {
    assert multiset(s.queue + [c]) == multiset(s.queue) + multiset{c};
    assert Account(s, c, 0);
    forall d ensures Account(ApplyPark(s, c), d, 0) {
      assert Account(s, d, 0);
    }
  }

  lemma StepKeeps(s: State, a: Action, batchSize: int)
    requires Accounts(s) && Lists(s, batchSize) && Enabled(s, a)
    ensures Accounts(Apply(s, a, batchSize)) && Lists(Apply(s, a, batchSize), batchSize)
  {
    match a {
      case Request(c, changed) =>
        forall d ensures Account(Apply(s, a, batchSize), d, 0) {
          assert Account(s, d, 0);
        }
      case Park(c) => ParkKeeps(s, c);
      case DataChange(strict) => DataChangeKeeps(s, strict, batchSize);
      case RunBatch(k, strict) =>
        BatchAccounts(s, k, strict);
        BatchLists(s, k, strict, batchSize);
      case Timeout(c, throws) => TimeoutKeeps(s, c, throws);
    }
  }

  lemma {:induction false} RunKeeps(states: seq<State>, acts: seq<Action>, batchSize: int, i: nat)
    requires IsRun(states, acts, batchSize) && i < |states|
    ensures Accounts(states[i]) && Lists(states[i], batchSize)
  {
    if i > 0 {
      RunKeeps(states, acts, batchSize, i - 1);
      StepKeeps(states[i - 1], acts[i - 1], batchSize);
    }
  }

  // ---------- Theorems over whole runs ----------

  lemma BrokenStep(s: State, a: Action, batchSize: int, c: Client)
    requires Accounts(s) && Enabled(s, a)
    ensures c in Apply(s, a, batchSize).broken <==> c in s.broken || a == Timeout(c, true)
  {
    if a.RunBatch? {
      var b := s.batches[a.k];
      ViewFrame(Started(s, a.k), b.list, b.members, a.strict);
    } else if a.DataChange? {
      DirectEffect(s, a.strict);
    }
  }

  /** A client waits for its first answer: it has been handed to the scheduler. */
  ghost predicate Waits(s: State, c: Client) { c in s.submitted || c in s.parked }

  /** Clients start to wait at an unchanged request only, and none is forgotten. */
  lemma WaitsStep(s: State, a: Action, batchSize: int, c: Client)
    requires Accounts(s) && Enabled(s, a)
    ensures Waits(Apply(s, a, batchSize), c) <==> Waits(s, c) || a == Request(c, false)
    ensures c in s.known ==> c in Apply(s, a, batchSize).known
  {
    if a.RunBatch? {
      var b := s.batches[a.k];
      ViewFrame(Started(s, a.k), b.list, b.members, a.strict);
    } else if a.DataChange? {
      DirectEffect(s, a.strict);
    }
  }

  /** Only a timeout task whose comparison threw breaks a client. */
  lemma {:induction false} BrokenBy(states: seq<State>, acts: seq<Action>, batchSize: int, i: nat, c: Client)
    requires IsRun(states, acts, batchSize) && i < |states|
    ensures c in states[i].broken <==> exists j :: 0 <= j < i && acts[j] == Timeout(c, true)
  {
    if i > 0 {
      BrokenBy(states, acts, batchSize, i - 1, c);
      RunKeeps(states, acts, batchSize, i - 1);
      BrokenStep(states[i - 1], acts[i - 1], batchSize, c);
    }
  }

  /**
   No client is lost, on either notification path: a parked client that is unanswered has a live
   timeout, except exactly when its own timeout task threw while comparing.
   */
  lemma NoClientLost(states: seq<State>, acts: seq<Action>, batchSize: int, i: nat, c: Client)
    requires IsRun(states, acts, batchSize) && i < |states| && c in states[i].parked
    requires c !in states[i].sent
    ensures c !in states[i].live <==> exists j :: 0 <= j < i && acts[j] == Timeout(c, true)
  {
    RunKeeps(states, acts, batchSize, i);
    assert Account(states[i], c, 0);
    BrokenBy(states, acts, batchSize, i, c);
  }

  /** A live timeout can fire at once, and when it does the client has been answered exactly once. */
  lemma LiveTimeoutAnswers(states: seq<State>, acts: seq<Action>, batchSize: int, i: nat, c: Client)
    requires IsRun(states, acts, batchSize) && i < |states| && c in states[i].live
    ensures Enabled(states[i], Timeout(c, false))
    ensures var r := Apply(states[i], Timeout(c, false), batchSize);
            r.sent[c] == 1 && c !in r.live && c !in r.queue
  {
    RunKeeps(states, acts, batchSize, i);
    assert Account(states[i], c, 0);
    WithoutBag(states[i].queue, c);
    assert multiset(Without(states[i].queue, c))[c] == 0;
  }

  /** On both paths: queued clients are unanswered, answered ones have no live timeout, nobody gets three answers. */
  lemma AnsweredClients(states: seq<State>, acts: seq<Action>, batchSize: int, i: nat, c: Client)
    requires IsRun(states, acts, batchSize) && i < |states|
    ensures c in states[i].queue ==> c !in states[i].sent && c in states[i].live
    ensures c in states[i].sent ==> c !in states[i].live
    ensures states[i].sent[c] <= 2
    ensures |states[i].queue| <= CAPACITY
  {
    RunKeeps(states, acts, batchSize, i);
    assert Account(states[i], c, 0);
    QueueBound(states, acts, batchSize, i);
  }

  lemma {:induction false} QueueBound(states: seq<State>, acts: seq<Action>, batchSize: int, i: nat)
    requires IsRun(states, acts, batchSize) && i < |states|
    ensures |states[i].queue| <= CAPACITY
  {
    if i > 0 {
      QueueBound(states, acts, batchSize, i - 1);
      RunKeeps(states, acts, batchSize, i - 1);
      var s, a := states[i - 1], acts[i - 1];
      match a {
        case DataChange(strict) => DirectEffect(s, strict);
        case RunBatch(k, strict) =>
          var b := s.batches[k];
          ViewFrame(Started(s, k), b.list, b.members, strict);
        case Timeout(c, throws) =>
          WithoutBag(s.queue, c);
          assert |multiset(Without(s.queue, c))| <= |multiset(s.queue)|;
        case _ =>
      }
    }
  }

  /** No data-change task of the run found more queued clients than the batch size. */
  ghost predicate AlwaysDirect(states: seq<State>, acts: seq<Action>, batchSize: int)
    requires |states| == |acts| + 1
  {
    forall j :: 0 <= j < |acts| && acts[j].DataChange? ==> |states[j].queue| <= batchSize
  }

  lemma DirectStepDrainsNothing(s: State, a: Action, batchSize: int)
    requires Accounts(s) && Enabled(s, a) && s.lists == 0 && s.batches == []
    requires a.DataChange? ==> |s.queue| <= batchSize
    ensures Apply(s, a, batchSize).lists == 0 && Apply(s, a, batchSize).batches == []
  {
    if a.DataChange? {
      DirectEffect(s, a.strict);
    }
  }

  lemma {:induction false} DirectRunsDrainNothing(states: seq<State>, acts: seq<Action>, batchSize: int, i: nat)
    requires IsRun(states, acts, batchSize) && i < |states| && AlwaysDirect(states, acts, batchSize)
    ensures states[i].lists == 0 && states[i].batches == []
  {
    if i > 0 {
      DirectRunsDrainNothing(states, acts, batchSize, i - 1);
      RunKeeps(states, acts, batchSize, i - 1);
      DirectStepDrainsNothing(states[i - 1], acts[i - 1], batchSize);
    }
  }

  /** On the direct path every client is answered at most once. */
  lemma AtMostOnce(states: seq<State>, acts: seq<Action>, batchSize: int, i: nat, c: Client)
    requires IsRun(states, acts, batchSize) && i < |states| && AlwaysDirect(states, acts, batchSize)
    ensures states[i].sent[c] <= 1
  {
    RunKeeps(states, acts, batchSize, i);
    assert Account(states[i], c, 0);
    DirectRunsDrainNothing(states, acts, batchSize, i);
  }

  /**
   The bound of AtMostOnce cannot be dropped: from every reachable state in which a data-change
   task drains the queue into views, the front client's timeout and then its view answer it twice.
   With no view pending before the drain that view is the next one, so the views run in order.
   */
  lemma DrainAllowsTwoAnswers(states: seq<State>, acts: seq<Action>, batchSize: int, i: nat, strict: bool)
    requires IsRun(states, acts, batchSize) && i < |states|
    requires 0 < batchSize < |states[i].queue|
    ensures var c, k := states[i].queue[0], |states[i].batches|;
            var s1 := Apply(states[i], DataChange(strict), batchSize);
            && Enabled(s1, Timeout(c, false))
            && var s2 := Apply(s1, Timeout(c, false), batchSize);
            && Enabled(s2, RunBatch(k, strict))
            && Apply(s2, RunBatch(k, strict), batchSize).sent[c] == 2
  {
    var s := states[i];
    RunKeeps(states, acts, batchSize, i);
    var c, k := s.queue[0], |s.batches|;
    assert Account(s, c, 0) && c in s.queue;
    var s1 := ApplyDataChange(s, batchSize, strict);
    DataChangeKeeps(s, strict, batchSize);
    assert s1.batches[k] == BatchView(s.lists, s.queue[..batchSize]);
    var s2 := ApplyTimeout(s1, c, false);
    assert s2.sent[c] == 1;
    TimeoutKeeps(s1, c, false);
    BatchAccounts(s2, k, strict);
    var s3 := ApplyBatch(s2, k, strict);
    assert Account(s3, c, 0);
    assert s.lists !in s2.touched;
    FirstOfViewAnswered(Started(s2, k), s.lists, s.queue[..batchSize], strict);
  }

  lemma FirstOfViewAnswered(s: State, list: nat, members: seq<Client>, strict: bool)
    requires members != []
    ensures RunView(s, list, members, strict).sent[members[0]] > s.sent[members[0]]
  {
    ViewFrame(SendThrough(s, list, members[0]), list, members[1..], strict);
  }

  /** Everybody answered through the list is in `view`, which is no larger than a batch. */
  ghost predicate OneView(s: State, list: nat, view: seq<Client>, batchSize: int) {
    (|view| <= batchSize || view == []) && forall c :: (list, c) in s.reached ==> c in view
  }

  /**
   However many views a drained list was split into, at most one batch of clients is answered
   through it: the view that runs first modifies the list under the others.
   */
  lemma OneViewPerDrainedList(states: seq<State>, acts: seq<Action>, batchSize: int, i: nat, list: nat)
    requires IsRun(states, acts, batchSize) && i < |states|
    ensures states[i].served[list] == 0 || states[i].served[list] <= batchSize
    ensures exists view :: OneView(states[i], list, view, batchSize)
  {
    RunKeeps(states, acts, batchSize, i);
    var s := states[i];
    var view := if list in s.touched then s.touched[list] else [];
    forall c | (list, c) in s.reached ensures c in view {
      assert (list, c).0 in s.touched;
    }
    assert OneView(s, list, view, batchSize);
  }

  /** Client c is answered by the data-change task that takes state `before` to `after`: at once, or later through the list it drained. */
  ghost predicate Notified(before: State, after: State, later: State, c: Client) {
    after.sent[c] > before.sent[c] || (after.lists > before.lists && (before.lists, c) in later.reached)
  }

  lemma {:induction false} Pigeonhole(q: seq<Client>, view: seq<Client>)
    requires |view| < |q| && forall c :: multiset(q)[c] <= 1
    ensures exists c :: c in q && c !in view
    decreases |view|
  {
    if view == [] {
      assert q[0] in q && q[0] !in view;
    } else {
      var c := view[0];
      var q' := Without(q, c);
      WithoutBag(q, c);
      assert |multiset(q')| >= |multiset(q)| - 1;
      assert view == [c] + view[1..];
      Pigeonhole(q', view[1..]);
      var d :| d in q' && d !in view[1..];
      assert d in multiset(q');
      assert d in q && d != c;
    }
  }

  lemma DistinctQueue(s: State, c: Client)
    requires Accounts(s)
    ensures multiset(s.queue)[c] <= 1
  {
    assert Account(s, c, 0);
  }

  /** A data change that does not take the direct path leaves some queued client without its notification for ever. */
  lemma DrainMissesSomebody(states: seq<State>, acts: seq<Action>, batchSize: int, i: nat, j: nat)
    requires IsRun(states, acts, batchSize) && i < |acts| && acts[i].DataChange? && i < j < |states|
    requires |states[i].queue| > batchSize && states[i].queue != []
    ensures exists c :: c in states[i].queue && !Notified(states[i], states[i + 1], states[j], c)
  {
    var s := states[i];
    RunKeeps(states, acts, batchSize, i);
    OneViewPerDrainedList(states, acts, batchSize, j, s.lists);
    var view :| OneView(states[j], s.lists, view, batchSize);
    forall c ensures multiset(s.queue)[c] <= 1 {
      DistinctQueue(s, c);
    }
    Pigeonhole(s.queue, view);
    var c :| c in s.queue && c !in view;
    assert states[i + 1].sent == s.sent;
    assert !Notified(s, states[i + 1], states[j], c);
  }

  /**
   A data change notifies every queued client if and only if it finds at most notifyBatchSize of
   them, however long one waits afterwards.
   */
  lemma NotifiesAllIff(states: seq<State>, acts: seq<Action>, batchSize: int, i: nat, j: nat)
    requires IsRun(states, acts, batchSize) && i < |acts| && acts[i].DataChange? && i < j < |states|
    requires states[i].queue != []
    ensures (forall c :: c in states[i].queue ==> Notified(states[i], states[i + 1], states[j], c)) <==>
            |states[i].queue| <= batchSize
  {
    if |states[i].queue| <= batchSize {
      RunKeeps(states, acts, batchSize, i);
      DirectEffect(states[i], acts[i].strict);
    } else {
      DrainMissesSomebody(states, acts, batchSize, i, j);
    }
  }

  /** Through a list only clients are answered that were in the queue when it was drained. */
  ghost predicate OnlyThese(s: State, list: nat, q: seq<Client>) {
    && list < s.lists
    && (forall b :: b in s.batches && b.list == list ==> forall c :: c in b.members ==> c in q)
    && (forall c :: (list, c) in s.reached ==> c in q)
  }

  lemma {:induction false} PartitionMembers(list: nat, q: seq<Client>, size: nat, b: BatchView, c: Client)
    requires size > 0 && b in Partition(list, q, size) && c in b.members
    ensures c in q
    decreases |q|
  {
    if |q| > size && b != BatchView(list, q[..size]) {
      PartitionMembers(list, q[size..], size, b, c);
    }
  }

  lemma DrainStarts(s: State, batchSize: int, strict: bool)
    requires Lists(s, batchSize) && 0 < batchSize < |s.queue|
    ensures OnlyThese(ApplyDataChange(s, batchSize, strict), s.lists, s.queue)
  {
    var r := ApplyDataChange(s, batchSize, strict);
    forall b, c | b in r.batches && b.list == s.lists && c in b.members ensures c in s.queue {
      assert b in Partition(s.lists, s.queue, batchSize);
      PartitionMembers(s.lists, s.queue, batchSize, b, c);
    }
  }

  lemma OnlyTheseBatch(s: State, k: nat, strict: bool, list: nat, q: seq<Client>)
    requires OnlyThese(s, list, q) && k < |s.batches|
    ensures OnlyThese(ApplyBatch(s, k, strict), list, q)
  {
    var b := s.batches[k];
    assert b in s.batches;
    assert forall v :: v in Started(s, k).batches ==> v in s.batches;
    ViewFrame(Started(s, k), b.list, b.members, strict);
  }

  lemma OnlyTheseChange(s: State, strict: bool, batchSize: int, list: nat, q: seq<Client>)
    requires Accounts(s) && OnlyThese(s, list, q)
    ensures OnlyThese(ApplyDataChange(s, batchSize, strict), list, q)
  {
    if |s.queue| <= batchSize {
      DirectEffect(s, strict);
    } else if batchSize > 0 {
      PartitionBag(s.lists, s.queue, batchSize);
    }
  }

  lemma OnlyTheseStep(s: State, a: Action, batchSize: int, list: nat, q: seq<Client>)
    requires Accounts(s) && OnlyThese(s, list, q) && Enabled(s, a)
    ensures OnlyThese(Apply(s, a, batchSize), list, q)
  {
    match a {
      case DataChange(strict) => OnlyTheseChange(s, strict, batchSize, list, q);
      case RunBatch(k, strict) => OnlyTheseBatch(s, k, strict, list, q);
      case _ =>
    }
  }

  /** The clients answered through a drained list come from the queue that was drained into it. */
  lemma {:induction false} ReachedWereQueued(states: seq<State>, acts: seq<Action>, batchSize: int, i: nat, j: nat)
    requires IsRun(states, acts, batchSize) && i < |acts| && acts[i].DataChange? && i < j < |states|
    requires 0 < batchSize < |states[i].queue|
    ensures OnlyThese(states[j], states[i].lists, states[i].queue)
    decreases j
  {
    RunKeeps(states, acts, batchSize, j - 1);
    if j == i + 1 {
      DrainStarts(states[i], batchSize, acts[i].strict);
    } else {
      ReachedWereQueued(states, acts, batchSize, i, j - 1);
      OnlyTheseStep(states[j - 1], acts[j - 1], batchSize, states[i].lists, states[i].queue);
    }
  }

  // ---------- The imperative code ----------

  /** The listener's mutable state. The ghost fields are the request history that the code does not store. */
  class Listener {
    const notifyBatchSize: int
    var clients: seq<Client>
    var timeouts: set<Client>
    var answers: multiset<Client>
    var views: seq<BatchView>
    var drained: nat
    var modified: map<nat, seq<Client>>
    ghost var known: set<Client>
    ghost var submitted: set<Client>
    ghost var parked: set<Client>
    ghost var broken: set<Client>
    ghost var served: multiset<nat>
    ghost var reached: set<(nat, Client)>

    ghost function View(): State
      reads this
    {
      State(known, submitted, parked, clients, timeouts, answers, broken, views, drained, modified, served, reached)
    }

    constructor (batchSize: int)
      ensures View() == INITIAL && notifyBatchSize == batchSize
    {
      notifyBatchSize := batchSize;
      clients, timeouts, answers, views, drained, modified := [], {}, multiset{}, [], 0, map[];
      known, submitted, parked, broken, served, reached := {}, {}, {}, {}, multiset{}, {};
    }

    method DoLongPolling(c: Client, changed: bool)
      requires Enabled(View(), Request(c, changed))
      modifies this
      ensures View() == Apply(old(View()), Request(c, changed), notifyBatchSize)
    {
      known := known + {c};
      if changed {
        answers := answers + multiset{c};
        return;
      }
      submitted := submitted + {c};
    }

    /**
     LongPollingClient.run: the timeout is scheduled first, so that the client keeps it when a full
     queue rejects it.
     */
    method RunClient(c: Client)
      requires Enabled(View(), Park(c))
      modifies this
      ensures View() == Apply(old(View()), Park(c), notifyBatchSize)
      ensures Accounts(old(View())) ==>
                Accounts(View()) && c in timeouts && (c in clients <==> |old(clients)| < CAPACITY)
    {
      if Accounts(View()) {
        ParkKeeps(View(), c);
        assert Account(View(), c, 0);
      }
      submitted, parked := submitted - {c}, parked + {c};
      timeouts := timeouts + {c};
      if |clients| < CAPACITY {
        clients := clients + [c];
      }
    }

    method SendResponse(c: Client)
      modifies this
      ensures View() == Send(old(View()), c)
    {
      timeouts := timeouts - {c};
      answers := answers + multiset{c};
    }

    method DoRunQueue(strict: bool)
      modifies this
      ensures View() == RunDirect(old(View()), strict)
    {
      while clients != []
        invariant RunDirect(View(), strict) == RunDirect(old(View()), strict)
        decreases |clients|
      {
        var client := clients[0];
        var completed := client in answers;
        clients := clients[1..];
        SendResponse(client);
        if strict && completed {
          return;
        }
      }
    }

    method DoRunView(list: nat, members: seq<Client>, strict: bool)
      modifies this
      ensures View() == RunView(old(View()), list, members, strict)
    {
      var rest := members;
      while rest != []
        invariant RunView(View(), list, rest, strict) == RunView(old(View()), list, members, strict)
        decreases |rest|
      {
        var client := rest[0];
        var completed := client in answers;
        rest := rest[1..];
        SendResponse(client);
        served, reached := served + multiset{list}, reached + {(list, client)};
        if strict && completed {
          return;
        }
      }
    }

    /** Schedules one task per view that Lists.partition yields. */
    method ScheduleViews(target: seq<Client>, size: nat)
      requires size > 0
      modifies `views
      ensures views == old(views) + Partition(drained, target, size)
    {
      var rest := target;
      while |rest| > size
        invariant views + Partition(drained, rest, size) == old(views) + Partition(drained, target, size)
        decreases |rest|
      {
        PartitionStep(views, drained, rest, size);
        views := views + [BatchView(drained, rest[..size])];
        rest := rest[size..];
      }
      views := views + [BatchView(drained, rest)];
    }

    method RunDataChange(strict: bool)
      modifies this
      ensures View() == Apply(old(View()), DataChange(strict), notifyBatchSize)
    {
      if |clients| <= notifyBatchSize {
        DoRunQueue(strict);
        return;
      }
      var target := clients;
      clients := [];
      if notifyBatchSize <= 0 {
        return;
      }
      ScheduleViews(target, notifyBatchSize);
      drained := drained + 1;
    }

    method RunScheduledView(k: nat, strict: bool)
      requires Enabled(View(), RunBatch(k, strict))
      modifies this
      ensures View() == Apply(old(View()), RunBatch(k, strict), notifyBatchSize)
    {
      var b := views[k];
      views := views[..k] + views[k + 1..];
      if b.list in modified || b.members == [] {
        return;
      }
      modified := modified[b.list := b.members];
      DoRunView(b.list, b.members, strict);
    }

    method RunTimeout(c: Client, throws: bool)
      requires Enabled(View(), Timeout(c, throws))
      modifies this
      ensures View() == Apply(old(View()), Timeout(c, throws), notifyBatchSize)
    {
      timeouts := timeouts - {c};
      clients := Without(clients, c);
      if throws {
        broken := broken + {c};
        return;
      }
      SendResponse(c);
    }
  }
}
