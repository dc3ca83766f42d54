/**
 The long-polling protocol read from its history: who is answered, queued and waiting in a state
 follows from the tasks that ran before it.
 */
module LongPollingHistory {
  import opened LongPolling

  // ---------- What a view reaches ----------

  /** The view gets to its i-th member: no completion before it throws. */
  ghost predicate GetsTo(members: seq<Client>, sent: multiset<Client>, strict: bool, i: int) {
    0 <= i < |members| && forall j :: 0 <= j < i ==> !(strict && members[j] in sent)
  }

  /** The view ends after its first n members. */
  ghost predicate EndsAfter(members: seq<Client>, sent: multiset<Client>, strict: bool, n: int) {
    0 <= n <= |members| && forall i :: GetsTo(members, sent, strict, i) <==> 0 <= i < n
  }

  ghost predicate Distinct(members: seq<Client>) {
    forall i, j :: 0 <= i < j < |members| ==> members[i] != members[j]
  }

  lemma EndsSooner(members: seq<Client>, sent: multiset<Client>, strict: bool, n: int)
    requires members != [] && Distinct(members) && EndsAfter(members, sent, strict, n)
    ensures n > 0
    ensures strict && members[0] in sent ==> n == 1
    ensures !(strict && members[0] in sent) ==> EndsAfter(members[1..], sent + multiset{members[0]}, strict, n - 1)
  {
    assert GetsTo(members, sent, strict, 0);
    if strict && members[0] in sent {
      assert !GetsTo(members, sent, strict, 1);
    } else {
      var t, sent' := members[1..], sent + multiset{members[0]};
      assert forall j :: 0 <= j < |t| ==> t[j] == members[j + 1] && (t[j] in sent' <==> t[j] in sent);
      forall i ensures GetsTo(t, sent', strict, i) <==> 0 <= i < n - 1 {
        assert GetsTo(members, sent, strict, i + 1) <==> 0 <= i + 1 < n;
        if GetsTo(t, sent', strict, i) {
          forall j | 0 <= j < i + 1 ensures !(strict && members[j] in sent) {
            if j > 0 { assert members[j] == t[j - 1]; }
          }
        }
        if 0 <= i && GetsTo(members, sent, strict, i + 1) {
          forall j | 0 <= j < i ensures !(strict && t[j] in sent') {
            assert t[j] == members[j + 1];
          }
        }
      }
    }
  }

  lemma FirstOf(members: seq<Client>, n: nat)
    requires 0 < n <= |members|
    ensures members[..n] == [members[0]] + members[1..][..n - 1]
  {
  }

  /** r is s after one answer through the list to each client of q. */
  ghost predicate AnsweredThrough(s: State, r: State, list: nat, q: seq<Client>) {
    && r == s.(live := r.live, sent := r.sent, served := r.served, reached := r.reached)
    && r.live == s.live - (set c | c in q)
    && r.sent == s.sent + multiset(q)
    && r.served[list] == s.served[list] + |q|
    && r.reached == s.reached + (set c | c in q :: (list, c))
  }

  lemma AnsweredNobody(s: State, list: nat)
    ensures AnsweredThrough(s, s, list, [])
  {
  }

  lemma AnsweredNext(s: State, r: State, list: nat, c: Client, q: seq<Client>)
    requires AnsweredThrough(SendThrough(s, list, c), r, list, q)
    ensures AnsweredThrough(s, r, list, [c] + q)
  {
    var p := [c] + q;
    assert (set d | d in p) == {c} + (set d | d in q);
    assert (set d | d in p :: (list, d)) == {(list, c)} + (set d | d in q :: (list, d));
  }

  /** A view answers exactly the members it gets to, once each, cancels their timeouts and records them under its list. */
  lemma {:induction false} ViewEffect(s: State, list: nat, members: seq<Client>, strict: bool, n: nat)
    requires Distinct(members) && EndsAfter(members, s.sent, strict, n)
    ensures AnsweredThrough(s, RunView(s, list, members, strict), list, members[..n])
    decreases |members|
  {
    if members == [] {
      assert members[..n] == [];
      AnsweredNobody(s, list);
    } else {
      EndsSooner(members, s.sent, strict, n);
      FirstOf(members, n);
      var s' := SendThrough(s, list, members[0]);
      if strict && members[0] in s.sent {
        assert members[1..][..n - 1] == [];
        AnsweredNobody(s', list);
        AnsweredNext(s, s', list, members[0], []);
      } else {
        ViewEffect(s', list, members[1..], strict, n - 1);
        AnsweredNext(s, RunView(s, list, members, strict), list, members[0], members[1..][..n - 1]);
      }
    }
  }

  lemma AllReached(members: seq<Client>, sent: multiset<Client>)
    ensures EndsAfter(members, sent, false, |members|)
  {
  }

  /** A view whose completions do not throw answers all its members. */
  lemma ViewAnswersAll(s: State, list: nat, members: seq<Client>, c: Client)
    requires Distinct(members) && c in members
    ensures var r := RunView(s, list, members, false);
            r.sent[c] == s.sent[c] + 1 && c !in r.live && (list, c) in r.reached
  {
    AllReached(members, s.sent);
    ViewEffect(s, list, members, false, |members|);
    assert members[..|members|] == members;
    OnceEach(members, c);
  }

  lemma OnceEach(members: seq<Client>, c: Client)
    requires Distinct(members) && c in members
    ensures multiset(members)[c] == 1
  {
    var i :| 0 <= i < |members| && members[i] == c;
    assert members == members[..i] + [c] + members[i + 1..];
    assert c !in members[..i] && c !in members[i + 1..];
  }

  // ---------- Every answer has its cause ----------

  /** The k-th view answers c: its list is unmodified and it gets to c. */
  ghost predicate ViewReaches(s: State, k: nat, strict: bool, c: Client)
    requires k < |s.batches|
  {
    var b := s.batches[k];
    b.list !in s.touched && exists i :: GetsTo(b.members, s.sent, strict, i) && b.members[i] == c
  }

  /** The task answers c. */
  ghost predicate Causes(s: State, a: Action, batchSize: int, c: Client)
    requires Enabled(s, a)
  {
    match a
    case Request(d, changed) => changed && c == d
    case Park(_) => false
    case DataChange(_) => |s.queue| <= batchSize && c in s.queue
    case RunBatch(k, strict) => ViewReaches(s, k, strict, c)
    case Timeout(d, throws) => !throws && c == d
  }

  lemma {:induction false} CountedTwice(members: seq<Client>, i: nat, j: nat)
    requires i < j < |members| && members[i] == members[j]
    ensures multiset(members)[members[i]] >= 2
  {
    assert members == members[..i] + [members[i]] + members[i + 1..j] + [members[j]] + members[j + 1..];
  }

  lemma ViewDistinct(s: State, k: nat)
    requires Accounts(s) && k < |s.batches|
    ensures Distinct(s.batches[k].members)
  {
    var members := s.batches[k].members;
    BagRemove(s.batches, k);
    forall i, j | 0 <= i < j < |members| ensures members[i] != members[j] {
      assert Account(s, members[i], 0);
      if members[i] == members[j] {
        CountedTwice(members, i, j);
      }
    }
  }

  /** Where a view ends: after the first member whose completion throws, or after the last. */
  lemma {:induction false} SomeEnd(members: seq<Client>, sent: multiset<Client>, strict: bool, m: nat) returns (n: nat)
    requires m <= |members| && forall j :: 0 <= j < m ==> !(strict && members[j] in sent)
    ensures EndsAfter(members, sent, strict, n)
    decreases |members| - m
  {
    if m == |members| {
      n := m;
    } else if strict && members[m] in sent {
      n := m + 1;
    } else {
      n := SomeEnd(members, sent, strict, m + 1);
    }
  }

  lemma ReachedIff(members: seq<Client>, sent: multiset<Client>, strict: bool, n: nat, c: Client)
    requires EndsAfter(members, sent, strict, n)
    ensures c in members[..n] <==> exists i :: GetsTo(members, sent, strict, i) && members[i] == c
  {
    if c in members[..n] {
      var i :| 0 <= i < n && members[..n][i] == c;
      assert GetsTo(members, sent, strict, i) && members[i] == c;
    }
    if i :| GetsTo(members, sent, strict, i) && members[i] == c {
      assert members[..n][i] == c;
    }
  }

  lemma BatchCauses(s: State, k: nat, strict: bool, c: Client)
    requires Accounts(s) && k < |s.batches|
    ensures ApplyBatch(s, k, strict).sent[c] == s.sent[c] + if ViewReaches(s, k, strict, c) then 1 else 0
  {
    var b := s.batches[k];
    if b.list !in s.touched && b.members != [] {
      ViewDistinct(s, k);
      var n := SomeEnd(b.members, s.sent, strict, 0);
      ViewEffect(Started(s, k), b.list, b.members, strict, n);
      ReachedIff(b.members, s.sent, strict, n, c);
      if c in b.members[..n] {
        OnceEach(b.members[..n], c);
      }
    }
  }

  /** A task answers exactly the clients it causes an answer for, once each. */
  lemma StepAnswers(s: State, a: Action, batchSize: int, c: Client)
    requires Accounts(s) && Enabled(s, a)
    ensures Apply(s, a, batchSize).sent[c] == s.sent[c] + if Causes(s, a, batchSize, c) then 1 else 0
  {
    match a {
      case DataChange(strict) =>
        DirectEffect(s, strict);
        assert Account(s, c, 0);
        assert c in s.queue <==> multiset(s.queue)[c] > 0;
      case RunBatch(k, strict) => BatchCauses(s, k, strict, c);
      case _ =>
    }
  }

  /** The number of tasks before state i that cause an answer to c. */
  ghost function CausesBefore(states: seq<State>, acts: seq<Action>, batchSize: int, i: nat, c: Client): nat
    requires IsRun(states, acts, batchSize) && i < |states|
  {
    if i == 0 then 0
    else CausesBefore(states, acts, batchSize, i - 1, c) + if Causes(states[i - 1], acts[i - 1], batchSize, c) then 1 else 0
  }

  /** In every run a client has been answered exactly as often as tasks caused an answer to it. */
  lemma {:induction false} AnswersCounted(states: seq<State>, acts: seq<Action>, batchSize: int, i: nat, c: Client)
    requires IsRun(states, acts, batchSize) && i < |states|
    ensures states[i].sent[c] == CausesBefore(states, acts, batchSize, i, c)
  {
    if i > 0 {
      AnswersCounted(states, acts, batchSize, i - 1, c);
      RunKeeps(states, acts, batchSize, i - 1);
      StepAnswers(states[i - 1], acts[i - 1], batchSize, c);
    }
  }

  // ---------- Parked and queued clients ----------

  lemma ParkedStep(s: State, a: Action, batchSize: int, c: Client)
    requires Accounts(s) && Enabled(s, a)
    ensures c in Apply(s, a, batchSize).parked <==> c in s.parked || a == Park(c)
  {
    if a.RunBatch? {
      var b := s.batches[a.k];
      ViewFrame(Started(s, a.k), b.list, b.members, a.strict);
    } else if a.DataChange? {
      DirectEffect(s, a.strict);
    }
  }

  /** A client is parked exactly if its run() was executed. */
  lemma {:induction false} ParkedBy(states: seq<State>, acts: seq<Action>, batchSize: int, i: nat, c: Client)
    requires IsRun(states, acts, batchSize) && i < |states|
    ensures c in states[i].parked <==> exists j :: 0 <= j < i && acts[j] == Park(c)
  {
    if i > 0 {
      ParkedBy(states, acts, batchSize, i - 1, c);
      RunKeeps(states, acts, batchSize, i - 1);
      ParkedStep(states[i - 1], acts[i - 1], batchSize, c);
    }
  }

  /** A task that takes c out of the queue: a data change takes everybody, a timeout its own client. */
  predicate Unqueues(a: Action, c: Client) { a.DataChange? || (a.Timeout? && a.c == c) }

  predicate Room(s: State) { |s.queue| < CAPACITY }

  lemma QueueStep(s: State, a: Action, batchSize: int, c: Client)
    requires Accounts(s) && Enabled(s, a)
    ensures c in Apply(s, a, batchSize).queue <==> (a == Park(c) && Room(s)) || (c in s.queue && !Unqueues(a, c))
  {
    match a {
      case Park(d) =>
        assert Account(s, c, 0);
        assert c in s.queue ==> multiset(s.queue)[c] > 0;
      case RunBatch(k, strict) =>
        var b := s.batches[k];
        ViewFrame(Started(s, k), b.list, b.members, strict);
      case DataChange(strict) => DirectEffect(s, strict);
      case Timeout(d, throws) =>
        WithoutBag(s.queue, d);
        assert Account(s, c, 0);
        assert c in s.queue <==> multiset(s.queue)[c] > 0;
        assert c in Without(s.queue, d) <==> multiset(Without(s.queue, d))[c] > 0;
      case _ =>
    }
  }

  /** Task j put c into the queue, and none of the tasks after it and before state i took it out. */
  ghost predicate QueuedSince(states: seq<State>, acts: seq<Action>, i: nat, c: Client, j: int)
    requires i <= |acts| <= |states|
  {
    0 <= j < i && acts[j] == Park(c) && Room(states[j]) && forall k :: j < k < i ==> !Unqueues(acts[k], c)
  }

  ghost predicate Queued(states: seq<State>, acts: seq<Action>, i: nat, c: Client)
    requires i <= |acts| <= |states|
  {
    exists j :: QueuedSince(states, acts, i, c, j)
  }

  lemma SinceStep(states: seq<State>, acts: seq<Action>, i: nat, c: Client)
    requires i < |acts| <= |states|
    ensures Queued(states, acts, i + 1, c) <==>
            (acts[i] == Park(c) && Room(states[i])) || (Queued(states, acts, i, c) && !Unqueues(acts[i], c))
  {
    if acts[i] == Park(c) && Room(states[i]) {
      assert QueuedSince(states, acts, i + 1, c, i);
    }
    if Queued(states, acts, i, c) && !Unqueues(acts[i], c) {
      var j :| QueuedSince(states, acts, i, c, j);
      assert QueuedSince(states, acts, i + 1, c, j);
    }
    if Queued(states, acts, i + 1, c) {
      var j :| QueuedSince(states, acts, i + 1, c, j);
      assert j < i ==> QueuedSince(states, acts, i, c, j);
    }
  }

  /**
   A client is in the queue exactly if it found room when it was parked and neither a data change
   nor its own timeout has run since.
   */
  lemma {:induction false} QueuedIff(states: seq<State>, acts: seq<Action>, batchSize: int, i: nat, c: Client)
    requires IsRun(states, acts, batchSize) && i < |states|
    ensures c in states[i].queue <==> Queued(states, acts, i, c)
  {
    if i > 0 {
      QueuedIff(states, acts, batchSize, i - 1, c);
      RunKeeps(states, acts, batchSize, i - 1);
      QueueStep(states[i - 1], acts[i - 1], batchSize, c);
      SinceStep(states, acts, i - 1, c);
    }
  }

  /**
   A data change that fits the batch size answers exactly the clients that were parked with room
   before it and not taken out since. A client whose comparison it overtook, because the scheduler
   had not parked it yet, and a client that found the queue full are not among them.
   */
  lemma NotifiedByChange(states: seq<State>, acts: seq<Action>, batchSize: int, i: nat, c: Client)
    requires IsRun(states, acts, batchSize) && i < |acts| && acts[i].DataChange? && |states[i].queue| <= batchSize
    ensures states[i + 1].sent[c] == states[i].sent[c] + if Queued(states, acts, i, c) then 1 else 0
    ensures c in states[i].submitted ==> !Queued(states, acts, i, c) && c in states[i + 1].submitted
  {
    RunKeeps(states, acts, batchSize, i);
    QueuedIff(states, acts, batchSize, i, c);
    StepAnswers(states[i], acts[i], batchSize, c);
    assert Account(states[i], c, 0);
    assert c in states[i].queue ==> multiset(states[i].queue)[c] > 0;
    DirectEffect(states[i], acts[i].strict);
  }

  // ---------- The queue is first in, first out ----------

  /** c was parked before d, both before state i. */
  ghost predicate ParkedBefore(acts: seq<Action>, i: nat, c: Client, d: Client)
    requires i <= |acts|
  {
    exists j, k :: 0 <= j < k < i && acts[j] == Park(c) && acts[k] == Park(d)
  }

  ghost predicate InOrder(q: seq<Client>, acts: seq<Action>, i: nat)
    requires i <= |acts|
  {
    forall a, b :: 0 <= a < b < |q| ==> ParkedBefore(acts, i, q[a], q[b])
  }

  lemma ParkedBeforeLater(acts: seq<Action>, i: nat, c: Client, d: Client)
    requires i < |acts| && ParkedBefore(acts, i, c, d)
    ensures ParkedBefore(acts, i + 1, c, d)
  {
  }

  lemma {:induction false} WithoutInOrder(q: seq<Client>, c: Client, acts: seq<Action>, i: nat)
    requires i <= |acts| && InOrder(q, acts, i)
    ensures InOrder(Without(q, c), acts, i) && forall d :: d in Without(q, c) ==> d in q
  {
    if q != [] && q[0] != c {
      var t := Without(q[1..], c);
      assert forall a :: 0 <= a < |q| - 1 ==> q[1..][a] == q[a + 1];
      WithoutInOrder(q[1..], c, acts, i);
      forall b | 0 <= b < |t| ensures ParkedBefore(acts, i, q[0], t[b]) {
        assert t[b] in q[1..];
        var k :| 0 <= k < |q| - 1 && q[1..][k] == t[b];
        assert q[k + 1] == t[b];
      }
    }
  }

  lemma InOrderLater(q: seq<Client>, acts: seq<Action>, i: nat)
    requires i < |acts| && InOrder(q, acts, i)
    ensures InOrder(q, acts, i + 1)
  {
    forall a, b | 0 <= a < b < |q| ensures ParkedBefore(acts, i + 1, q[a], q[b]) {
      ParkedBeforeLater(acts, i, q[a], q[b]);
    }
  }

  lemma FifoStep(states: seq<State>, acts: seq<Action>, batchSize: int, i: nat)
    requires IsRun(states, acts, batchSize) && i < |acts| && InOrder(states[i].queue, acts, i)
    ensures InOrder(states[i + 1].queue, acts, i + 1)
  {
    var s := states[i];
    RunKeeps(states, acts, batchSize, i);
    InOrderLater(s.queue, acts, i);
    match acts[i] {
      case Park(c) =>
        forall a | 0 <= a < |s.queue| ensures ParkedBefore(acts, i + 1, s.queue[a], c) {
          QueuedIff(states, acts, batchSize, i, s.queue[a]);
          var j :| QueuedSince(states, acts, i, s.queue[a], j);
          assert acts[j] == Park(s.queue[a]) && acts[i] == Park(c);
        }
      case RunBatch(k, strict) =>
        var b := s.batches[k];
        ViewFrame(Started(s, k), b.list, b.members, strict);
      case DataChange(strict) => DirectEffect(s, strict);
      case Timeout(c, throws) => WithoutInOrder(s.queue, c, acts, i + 1);
      case _ =>
    }
  }

  /** In every state the queued clients stand in the order in which they were parked. */
  lemma {:induction false} QueueIsFifo(states: seq<State>, acts: seq<Action>, batchSize: int, i: nat)
    requires IsRun(states, acts, batchSize) && i < |states|
    ensures InOrder(states[i].queue, acts, i)
  {
    if i > 0 {
      QueueIsFifo(states, acts, batchSize, i - 1);
      FifoStep(states, acts, batchSize, i - 1);
    }
  }

  // ---------- Requests that are answered at once ----------

  /** A client that was answered without ever waiting: nothing will be sent to it again. */
  ghost predicate Settled(s: State, c: Client) { c in s.known && s.sent[c] == 1 && !Waits(s, c) }

  lemma RequestSettles(s: State, c: Client, batchSize: int)
    requires Accounts(s) && Enabled(s, Request(c, true))
    ensures Settled(Apply(s, Request(c, true), batchSize), c)
  {
    assert Account(s, c, 0);
  }

  lemma SettledStep(s: State, a: Action, batchSize: int, c: Client)
    requires Accounts(s) && Enabled(s, a) && Settled(s, c)
    ensures Settled(Apply(s, a, batchSize), c)
  {
    assert Account(s, c, 0);
    WaitsStep(s, a, batchSize, c);
    StepAnswers(s, a, batchSize, c);
    assert c in s.queue ==> multiset(s.queue)[c] > 0;
    if a.RunBatch? {
      BagRemove(s.batches, a.k);
      assert c !in multiset(s.batches[a.k].members);
    }
  }

  // ---------- Partition ----------

  ghost function JoinViews(bs: seq<BatchView>): seq<Client> {
    if bs == [] then [] else bs[0].members + JoinViews(bs[1..])
  }

  /** The views of a drained list are consecutive pieces of it, all full except perhaps the last. */
  lemma {:induction false} PartitionJoins(list: nat, q: seq<Client>, size: nat)
    requires size > 0
    ensures JoinViews(Partition(list, q, size)) == q
    ensures forall i :: 0 <= i < |Partition(list, q, size)| - 1 ==> |Partition(list, q, size)[i].members| == size
    decreases |q|
  {
    if |q| > size {
      var rest := Partition(list, q[size..], size);
      PartitionJoins(list, q[size..], size);
      assert Partition(list, q, size)[1..] == rest;
      assert q == q[..size] + q[size..];
    } else {
      assert JoinViews([BatchView(list, q)][1..]) == [];
      assert q + [] == q;
    }
  }

  /**
   A data change that drains the queue answers nobody and puts the queue, in order and whole, into
   views of one new list.
   */
  lemma DrainSchedules(s: State, batchSize: int, strict: bool)
    requires 0 < batchSize < |s.queue|
    ensures var r := ApplyDataChange(s, batchSize, strict);
            && r == s.(queue := [], lists := s.lists + 1, batches := r.batches) && s.batches <= r.batches
            && var views := r.batches[|s.batches|..];
               && JoinViews(views) == s.queue
               && (forall b :: b in views ==> b.list == s.lists && |b.members| <= batchSize)
               && (forall i :: 0 <= i < |views| - 1 ==> |views[i].members| == batchSize)
  {
    PartitionJoins(s.lists, s.queue, batchSize);
    PartitionBag(s.lists, s.queue, batchSize);
    var r := ApplyDataChange(s, batchSize, strict);
    assert r.batches[|s.batches|..] == Partition(s.lists, s.queue, batchSize);
  }

  // ---------- What a drained list delivers ----------

  /** Task a is, in state s, the first view of list l to run, and ends after its first n members. */
  ghost predicate FirstView(s: State, a: Action, l: nat, n: nat) {
    && a.RunBatch? && a.k < |s.batches| && s.batches[a.k].list == l && l !in s.touched && s.batches[a.k].members != []
    && EndsAfter(s.batches[a.k].members, s.sent, a.strict, n)
  }

  /** Exactly the clients of q have been answered through list l, and no view of it will answer another. */
  ghost predicate Delivered(s: State, l: nat, q: seq<Client>) {
    l in s.touched && forall c :: (l, c) in s.reached <==> c in q
  }

  lemma FirstViewDelivers(s: State, a: Action, batchSize: int, l: nat, n: nat)
    requires Accounts(s) && Lists(s, batchSize) && FirstView(s, a, l, n)
    ensures Delivered(ApplyBatch(s, a.k, a.strict), l, s.batches[a.k].members[..n])
  {
    var b := s.batches[a.k];
    ViewDistinct(s, a.k);
    ViewEffect(Started(s, a.k), l, b.members, a.strict, n);
    assert ApplyBatch(s, a.k, a.strict) == RunView(Started(s, a.k), l, b.members, a.strict);
  }

  lemma DeliveredBatch(s: State, k: nat, strict: bool, l: nat, q: seq<Client>)
    requires k < |s.batches| && Delivered(s, l, q)
    ensures Delivered(ApplyBatch(s, k, strict), l, q)
  {
    var b := s.batches[k];
    if b.list !in s.touched && b.members != [] {
      ViewFrame(Started(s, k), b.list, b.members, strict);
      ViewKeepsReached(Started(s, k), b.list, b.members, strict);
    }
  }

  lemma {:induction false} ViewKeepsReached(s: State, list: nat, members: seq<Client>, strict: bool)
    ensures s.reached <= RunView(s, list, members, strict).reached
    decreases |members|
  {
    if members != [] {
      ViewKeepsReached(SendThrough(s, list, members[0]), list, members[1..], strict);
    }
  }

  lemma DeliveredStep(s: State, a: Action, batchSize: int, l: nat, q: seq<Client>)
    requires Accounts(s) && Enabled(s, a) && Delivered(s, l, q)
    ensures Delivered(Apply(s, a, batchSize), l, q)
  {
    match a {
      case DataChange(strict) => DirectEffect(s, strict);
      case RunBatch(k, strict) => DeliveredBatch(s, k, strict, l, q);
      case _ =>
    }
  }

  /** For ever after, the clients answered through a drained list are those its first view got to. */
  lemma {:induction false} OnlyFirstViewDelivers(states: seq<State>, acts: seq<Action>, batchSize: int, j: nat, i: nat, l: nat, n: nat)
    requires IsRun(states, acts, batchSize) && j < i < |states| && FirstView(states[j], acts[j], l, n)
    ensures Delivered(states[i], l, states[j].batches[acts[j].k].members[..n])
    decreases i
  {
    RunKeeps(states, acts, batchSize, i - 1);
    if i == j + 1 {
      FirstViewDelivers(states[j], acts[j], batchSize, l, n);
    } else {
      OnlyFirstViewDelivers(states, acts, batchSize, j, i - 1, l, n);
      DeliveredStep(states[i - 1], acts[i - 1], batchSize, l, states[j].batches[acts[j].k].members[..n]);
    }
  }
}
