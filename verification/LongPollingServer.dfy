/**
 The long-polling protocol together with the md5 cache it compares against. A request keeps its
 parameters, and the comparison of a request and of its timeout read the same parameters.

 A comparison is one step that may see several contents of the cache: `during` are the contents
 that other threads, or a refresh by the comparison itself, give it meanwhile.
 */
module LongPollingServer {
  import opened Options
  import opened ConfigCache
  import LP = LongPolling
  import H = LongPollingHistory

  type Client = LP.Client
  type Params = Group -> Option<string>

  datatype Server = Server(poll: LP.State, history: seq<Cache>, params: map<Client, Params>)

  /** A verdict is what compareChangedGroup returns, None when it throws. */
  datatype Action =
    | Arrive(c: Client, params: Params, during: seq<Cache>, verdict: Option<seq<Group>>)
    | Expire(c: Client, during: seq<Cache>, verdict: Option<seq<Group>>)
    | Update(content: Cache)
    | Park(c: Client)
    | DataChange(strict: bool)
    | RunBatch(k: nat, strict: bool)

  ghost predicate CacheOk(c: Cache, digest: string -> string) {
    Complete(c) && forall g :: g in c ==> c[g].group == g && c[g].md5 == digest(c[g].json)
  }

  ghost predicate CachesOk(h: seq<Cache>, digest: string -> string) {
    forall i :: 0 <= i < |h| ==> CacheOk(h[i], digest)
  }

  ghost predicate Parses(params: Params) { forall g :: ParseParam(params(g)).Some? }

  /** What ConfigCache.Listener.CompareChangedGroup promises. */
  ghost predicate Compares(history: seq<Cache>, during: seq<Cache>, params: Params, verdict: Option<seq<Group>>) {
    && history != []
    && (verdict.Some? <==> Parses(params))
    && (verdict.Some? ==> Verdicts((history + during)[|history| - 1..], params, verdict.value, |GROUPS|))
  }

  function ParamsOf(s: Server, c: Client): Params {
    if c in s.params then s.params[c] else (_: Group) => None
  }

  /** The step of the protocol that an action amounts to; an update and a rejected request are none. */
  function PollAction(a: Action): Option<LP.Action> {
    match a
    case Arrive(c, _, _, verdict) => if verdict.None? then None else Some(LP.Request(c, verdict.value != []))
    case Expire(c, _, verdict) => Some(LP.Timeout(c, verdict.None?))
    case Update(_) => None
    case Park(c) => Some(LP.Park(c))
    case DataChange(strict) => Some(LP.DataChange(strict))
    case RunBatch(k, strict) => Some(LP.RunBatch(k, strict))
  }

  function Growth(a: Action): seq<Cache> {
    match a
    case Arrive(_, _, during, _) => during
    case Expire(_, during, _) => during
    case Update(content) => [content]
    case _ => []
  }

  ghost predicate Enabled(s: Server, a: Action, digest: string -> string) {
    && CachesOk(Growth(a), digest)
    && (PollAction(a).Some? ==> LP.Enabled(s.poll, PollAction(a).value))
    && (a.Arrive? ==> Compares(s.history, a.during, a.params, a.verdict))
    && (a.Expire? ==> Compares(s.history, a.during, ParamsOf(s, a.c), a.verdict))
  }

  /** A request with invalid parameters throws before it enters the protocol. */
  function Apply(s: Server, a: Action, batchSize: int): Server
    requires PollAction(a).Some? ==> LP.Enabled(s.poll, PollAction(a).value)
  {
    var poll := if PollAction(a).Some? then LP.Apply(s.poll, PollAction(a).value, batchSize) else s.poll;
    var params := if a.Arrive? && a.verdict.Some? then s.params[a.c := a.params] else s.params;
    Server(poll, s.history + Growth(a), params)
  }

  /** A run from an initialised cache and an empty protocol. */
  ghost predicate IsRun(states: seq<Server>, acts: seq<Action>, batchSize: int, digest: string -> string) {
    && |states| == |acts| + 1
    && states[0].poll == LP.INITIAL && states[0].params == map[]
    && |states[0].history| == 1 && CachesOk(states[0].history, digest)
    && forall i {:trigger acts[i]} :: 0 <= i < |acts| ==>
         Enabled(states[i], acts[i], digest) && states[i + 1] == Apply(states[i], acts[i], batchSize)
  }

  // ---------- What every step keeps ----------

  /** Every waiting client has parameters that parse. */
  ghost predicate ParamsOk(s: Server) {
    forall c :: LP.Waits(s.poll, c) ==> c in s.params && Parses(s.params[c])
  }

  ghost predicate Inv(s: Server, batchSize: int, digest: string -> string) {
    && LP.Accounts(s.poll) && LP.Lists(s.poll, batchSize) && s.poll.broken == {}
    && s.history != [] && CachesOk(s.history, digest)
    && ParamsOk(s)
  }

  /** The comparison of a timeout does not throw: the same parameters passed when the request arrived. */
  lemma TimeoutCompares(s: Server, a: Action, digest: string -> string)
    requires LP.Accounts(s.poll) && ParamsOk(s) && Enabled(s, a, digest) && a.Expire?
    ensures a.verdict.Some?
  {
    assert LP.Account(s.poll, a.c, 0);
    assert LP.Waits(s.poll, a.c);
  }

  lemma ParamsStep(s: Server, a: Action, batchSize: int, digest: string -> string)
    requires LP.Accounts(s.poll) && ParamsOk(s) && Enabled(s, a, digest)
    ensures ParamsOk(Apply(s, a, batchSize))
  {
    var s' := Apply(s, a, batchSize);
    forall c | LP.Waits(s'.poll, c) ensures c in s'.params && Parses(s'.params[c]) {
      if PollAction(a).Some? {
        LP.WaitsStep(s.poll, PollAction(a).value, batchSize, c);
      }
    }
  }

  lemma NobodyBreaks(s: Server, a: Action, batchSize: int, digest: string -> string)
    requires LP.Accounts(s.poll) && ParamsOk(s) && Enabled(s, a, digest) && s.poll.broken == {}
    ensures Apply(s, a, batchSize).poll.broken == {}
  {
    if a.Expire? {
      TimeoutCompares(s, a, digest);
    }
    if PollAction(a).Some? {
      forall c ensures c !in Apply(s, a, batchSize).poll.broken {
        LP.BrokenStep(s.poll, PollAction(a).value, batchSize, c);
      }
    }
  }

  lemma StepKeeps(s: Server, a: Action, batchSize: int, digest: string -> string)
    requires Inv(s, batchSize, digest) && Enabled(s, a, digest)
    ensures Inv(Apply(s, a, batchSize), batchSize, digest)
  {
    if PollAction(a).Some? {
      LP.StepKeeps(s.poll, PollAction(a).value, batchSize);
    }
    ParamsStep(s, a, batchSize, digest);
    NobodyBreaks(s, a, batchSize, digest);
  }

  lemma {:induction false} RunKeeps(states: seq<Server>, acts: seq<Action>, batchSize: int, digest: string -> string, i: nat)
    requires IsRun(states, acts, batchSize, digest) && i < |states|
    ensures Inv(states[i], batchSize, digest)
  {
    if i > 0 {
      RunKeeps(states, acts, batchSize, digest, i - 1);
      StepKeeps(states[i - 1], acts[i - 1], batchSize, digest);
    } else {
      forall c ensures LP.Account(states[0].poll, c, 0) {
      }
    }
  }

  /** A step of a run, with what is known of the state it starts from. */
  ghost predicate Steps(s: Server, a: Action, s': Server, batchSize: int, digest: string -> string) {
    Inv(s, batchSize, digest) && Enabled(s, a, digest) && s' == Apply(s, a, batchSize)
  }

  lemma StepAt(states: seq<Server>, acts: seq<Action>, batchSize: int, digest: string -> string, i: nat)
    requires IsRun(states, acts, batchSize, digest) && i < |acts|
    ensures Steps(states[i], acts[i], states[i + 1], batchSize, digest)
  {
    RunKeeps(states, acts, batchSize, digest, i);
  }

  // ---------- Theorems over whole runs ----------

  /** In every reachable state the parameters of every waiting client parse, so no timeout throws on them. */
  lemma WaitingParamsParse(states: seq<Server>, acts: seq<Action>, batchSize: int, digest: string -> string, i: nat, c: Client)
    requires IsRun(states, acts, batchSize, digest) && i < |states| && LP.Waits(states[i].poll, c)
    ensures c in states[i].params && Parses(states[i].params[c])
    ensures forall during, verdict :: Enabled(states[i], Expire(c, during, verdict), digest) ==> verdict.Some?
  {
    RunKeeps(states, acts, batchSize, digest, i);
  }

  /** No client is lost, in any run: a parked client is answered or has a live timeout. */
  lemma NoClientLost(states: seq<Server>, acts: seq<Action>, batchSize: int, digest: string -> string, i: nat, c: Client)
    requires IsRun(states, acts, batchSize, digest) && i < |states| && c in states[i].poll.parked
    ensures c in states[i].poll.sent <==> c !in states[i].poll.live
    ensures states[i].poll.broken == {}
  {
    RunKeeps(states, acts, batchSize, digest, i);
    assert LP.Account(states[i].poll, c, 0);
  }

  /** When the timeout of a live client fires, the client has been answered exactly once, whatever the comparison says. */
  lemma TimeoutAnswers(states: seq<Server>, acts: seq<Action>, batchSize: int, digest: string -> string, i: nat)
    requires IsRun(states, acts, batchSize, digest) && i < |acts| && acts[i].Expire?
    ensures states[i + 1].poll.sent[acts[i].c] == 1 && acts[i].c !in states[i + 1].poll.live
  {
    RunKeeps(states, acts, batchSize, digest, i);
    TimeoutCompares(states[i], acts[i], digest);
    assert LP.Account(states[i].poll, acts[i].c, 0);
  }

  lemma HeldParamsStep(s: Server, a: Action, s': Server, batchSize: int, digest: string -> string, c: Client)
    requires Steps(s, a, s', batchSize, digest) && c in s.poll.known && c in s.params
    ensures c in s'.poll.known && c in s'.params && s'.params[c] == s.params[c]
  {
    if PollAction(a).Some? {
      LP.WaitsStep(s.poll, PollAction(a).value, batchSize, c);
    }
  }

  /** The parameters of an accepted request are kept, and are the ones its timeout compares. */
  lemma {:induction false} KeepsParams(states: seq<Server>, acts: seq<Action>, batchSize: int, digest: string -> string, i: nat, j: nat)
    requires IsRun(states, acts, batchSize, digest) && i < |acts| && acts[i].Arrive? && acts[i].verdict.Some? && i < j < |states|
    ensures acts[i].c in states[j].poll.known && ParamsOf(states[j], acts[i].c) == acts[i].params
    ensures acts[i].c in states[j].params
    decreases j
  {
    StepAt(states, acts, batchSize, digest, j - 1);
    if j > i + 1 {
      KeepsParams(states, acts, batchSize, digest, i, j - 1);
      HeldParamsStep(states[j - 1], acts[j - 1], states[j], batchSize, digest, acts[i].c);
    }
  }

  /**
   What becomes of a request: with a changed group it is answered at once and never waits, without
   one it is handed to the scheduler unanswered, and an invalid one leaves the protocol alone.
   */
  lemma ArriveEffect(states: seq<Server>, acts: seq<Action>, batchSize: int, digest: string -> string, i: nat)
    requires IsRun(states, acts, batchSize, digest) && i < |acts| && acts[i].Arrive?
    ensures var c, v, r := acts[i].c, acts[i].verdict, states[i + 1].poll;
            && (v.Some? && v.value != [] ==> r.sent[c] == 1 && !LP.Waits(r, c) && c !in r.live)
            && (v == Some([]) ==> c in r.submitted && c !in r.sent && c !in r.parked)
            && (v.None? ==> r == states[i].poll)
    ensures forall d :: d != acts[i].c ==>
              states[i + 1].poll.sent[d] == states[i].poll.sent[d] &&
              (LP.Waits(states[i + 1].poll, d) <==> LP.Waits(states[i].poll, d))
  {
    RunKeeps(states, acts, batchSize, digest, i);
    RunKeeps(states, acts, batchSize, digest, i + 1);
    assert LP.Account(states[i].poll, acts[i].c, 0) && LP.Account(states[i + 1].poll, acts[i].c, 0);
  }

  lemma StaysSettled(s: Server, a: Action, s': Server, batchSize: int, digest: string -> string, c: Client)
    requires Steps(s, a, s', batchSize, digest) && H.Settled(s.poll, c)
    ensures H.Settled(s'.poll, c)
  {
    if PollAction(a).Some? {
      H.SettledStep(s.poll, PollAction(a).value, batchSize, c);
    }
  }

  /** A request with a changed group has exactly one answer in every later state. */
  lemma {:induction false} ChangedIsAnsweredOnce(states: seq<Server>, acts: seq<Action>, batchSize: int,
                                                 digest: string -> string, i: nat, j: nat)
    requires IsRun(states, acts, batchSize, digest) && i < |acts| && acts[i].Arrive? && i < j < |states|
    requires acts[i].verdict.Some? && acts[i].verdict.value != []
    ensures states[j].poll.sent[acts[i].c] == 1 && !LP.Waits(states[j].poll, acts[i].c)
    ensures H.Settled(states[j].poll, acts[i].c)
    decreases j
  {
    if j == i + 1 {
      ArriveEffect(states, acts, batchSize, digest, i);
    } else {
      ChangedIsAnsweredOnce(states, acts, batchSize, digest, i, j - 1);
      StepAt(states, acts, batchSize, digest, j - 1);
      StaysSettled(states[j - 1], acts[j - 1], states[j], batchSize, digest, acts[i].c);
    }
  }

  /** The md5 the client reports for g differs from everything the cache holds during the comparison. */
  ghost predicate Outdated(s: Server, a: Action, g: Group)
    requires a.Arrive? && s.history != [] && ParseParam(a.params(g)).Some?
  {
    forall k :: |s.history| - 1 <= k < |s.history + a.during| && g in (s.history + a.during)[k] ==>
      (s.history + a.during)[k][g].md5 != ParseParam(a.params(g)).value.0
  }

  lemma OutdatedIsReported(s: Server, a: Action, digest: string -> string, g: Group)
    requires Enabled(s, a, digest) && a.Arrive? && Parses(a.params) && Outdated(s, a, g)
    ensures a.verdict.Some? && g in a.verdict.value
  {
    var h := s.history + a.during;
    var span := h[|s.history| - 1..];
    assert Verdict(span, GROUPS[Position(g)], a.params(GROUPS[Position(g)]), GROUPS[Position(g)] in a.verdict.value);
    assert forall k :: 0 <= k < |span| ==> span[k] == h[|s.history| - 1 + k];
  }

  /** A valid request with an outdated group is answered at once, and never again. */
  lemma OutdatedIsAnswered(states: seq<Server>, acts: seq<Action>, batchSize: int, digest: string -> string,
                           i: nat, j: nat, g: Group)
    requires IsRun(states, acts, batchSize, digest) && i < |acts| && acts[i].Arrive? && i < j < |states|
    requires Parses(acts[i].params) && states[i].history != [] && Outdated(states[i], acts[i], g)
    ensures acts[i].verdict.Some? && g in acts[i].verdict.value
    ensures states[j].poll.sent[acts[i].c] == 1 && !LP.Waits(states[j].poll, acts[i].c)
  {
    OutdatedIsReported(states[i], acts[i], digest, g);
    ChangedIsAnsweredOnce(states, acts, batchSize, digest, i, j);
  }

  /** The client reports, for every group, what a cache holds. */
  ghost predicate Reports(params: Params, c: Cache) {
    forall g :: g in c && params(g) == Some(Reported(c[g]))
  }

  /** A quiet comparison of reported entries with the cache they came from finds no change. */
  lemma QuietReport(c: Cache, params: Params, verdict: seq<Group>, digest: string -> string)
    requires DigestOk(digest) && CacheOk(c, digest) && Reports(params, c)
    requires Verdicts([c], params, verdict, |GROUPS|)
    ensures verdict == []
  {
    if verdict != [] {
      var g := verdict[0];
      assert Verdict([c], GROUPS[Position(g)], params(GROUPS[Position(g)]), g in verdict);
      ReportParses(c[g], digest);
      assert false;
    }
  }

  lemma ReportsParse(c: Cache, params: Params, digest: string -> string)
    requires DigestOk(digest) && CacheOk(c, digest) && Reports(params, c)
    ensures Parses(params)
  {
    forall g ensures ParseParam(params(g)).Some? {
      assert g in c;
      ReportParses(c[g], digest);
    }
  }

  lemma QuietCompares(h: seq<Cache>, params: Params, verdict: Option<seq<Group>>, digest: string -> string)
    requires h != [] && CacheOk(h[|h| - 1], digest) && DigestOk(digest) && Reports(params, h[|h| - 1])
    requires Compares(h, [], params, verdict)
    ensures verdict == Some([])
  {
    var c := h[|h| - 1];
    ReportsParse(c, params, digest);
    assert (h + [])[|h| - 1..] == [c];
    QuietReport(c, params, verdict.value, digest);
  }

  /** A request that reports, for every group, what the cache of s holds, and sees no update. */
  ghost predicate Echoing(s: Server, a: Action) {
    a.Arrive? && a.during == [] && s.history != [] && Reports(a.params, s.history[|s.history| - 1])
  }

  lemma EchoStep(s: Server, a: Action, s': Server, batchSize: int, digest: string -> string)
    requires Steps(s, a, s', batchSize, digest) && DigestOk(digest)
    requires Echoing(s, a)
    ensures a.verdict == Some([]) && a.c in s'.poll.submitted && a.c !in s'.poll.sent
  {
    assert a.verdict == Some([]) by {
      QuietCompares(s.history, a.params, a.verdict, digest);
    }
    assert s'.poll == LP.Apply(s.poll, LP.Request(a.c, false), batchSize);
    assert a.c !in s.poll.sent by { assert LP.Account(s.poll, a.c, 0); }
  }

  /** Step i is a request that reports what was fetched in state k, with no update in between. */
  ghost predicate Echoed(states: seq<Server>, acts: seq<Action>, k: nat, i: nat) {
    k <= i < |acts| < |states| && states[k].history == states[i].history && Echoing(states[k], acts[i])
  }

  /** Such a request finds nothing changed and is handed to the scheduler. */
  lemma EchoIsSubmitted(states: seq<Server>, acts: seq<Action>, batchSize: int, digest: string -> string, k: nat, i: nat)
    requires IsRun(states, acts, batchSize, digest)
    ensures DigestOk(digest) && Echoed(states, acts, k, i) ==>
              && acts[i].verdict == Some([])
              && acts[i].c in states[i + 1].poll.submitted && acts[i].c !in states[i + 1].poll.sent
  {
    if DigestOk(digest) && Echoed(states, acts, k, i) {
      assert Echoing(states[i], acts[i]);
      StepAt(states, acts, batchSize, digest, i);
      EchoStep(states[i], acts[i], states[i + 1], batchSize, digest);
    }
  }

  lemma StillWaits(s: Server, a: Action, s': Server, batchSize: int, digest: string -> string, c: Client)
    requires Steps(s, a, s', batchSize, digest) && LP.Waits(s.poll, c)
    ensures LP.Waits(s'.poll, c)
  {
    if PollAction(a).Some? {
      LP.WaitsStep(s.poll, PollAction(a).value, batchSize, c);
    }
  }

  /** A waiting client waits in every later state. */
  lemma {:induction false} WaitsOn(states: seq<Server>, acts: seq<Action>, batchSize: int, digest: string -> string,
                                   i: nat, j: nat, c: Client)
    requires IsRun(states, acts, batchSize, digest) && i <= j < |states| && LP.Waits(states[i].poll, c)
    ensures LP.Waits(states[j].poll, c)
    decreases j
  {
    if i < j {
      WaitsOn(states, acts, batchSize, digest, i, j - 1, c);
      StepAt(states, acts, batchSize, digest, j - 1);
      StillWaits(states[j - 1], acts[j - 1], states[j], batchSize, digest, c);
    }
  }

  /** Client c is with the scheduler, which can park it, or it has been parked and is answered or has a live timeout. */
  ghost predicate Attended(s: Server, c: Client, batchSize: int, digest: string -> string) {
    if c in s.poll.parked then c in s.poll.sent <==> c !in s.poll.live
    else && Enabled(s, Park(c), digest)
         && var r := Apply(s, Park(c), batchSize).poll; c in r.parked && c in r.live
  }

  /** Its client is parked: it is attended to in every later state. */
  lemma EchoIsParked(states: seq<Server>, acts: seq<Action>, batchSize: int, digest: string -> string, k: nat, i: nat)
    requires IsRun(states, acts, batchSize, digest)
    ensures DigestOk(digest) && Echoed(states, acts, k, i) ==>
              forall j :: i < j < |states| ==> Attended(states[j], acts[i].c, batchSize, digest)
  {
    if DigestOk(digest) && Echoed(states, acts, k, i) {
      EchoIsSubmitted(states, acts, batchSize, digest, k, i);
      forall j | i < j < |states| ensures Attended(states[j], acts[i].c, batchSize, digest) {
        WaitsOn(states, acts, batchSize, digest, i + 1, j, acts[i].c);
        if acts[i].c in states[j].poll.parked {
          NoClientLost(states, acts, batchSize, digest, j, acts[i].c);
        }
      }
    }
  }

  // ---------- The protocol alone ----------

  /** What a run of the server does to the protocol is a run of the protocol, in which no timeout throws. */
  lemma {:induction false} RunProjects(states: seq<Server>, acts: seq<Action>, batchSize: int, digest: string -> string, i: nat)
    returns (polls: seq<LP.State>, steps: seq<LP.Action>)
    requires IsRun(states, acts, batchSize, digest) && i < |states|
    ensures LP.IsRun(polls, steps, batchSize) && polls[|polls| - 1] == states[i].poll
    ensures forall j :: 0 <= j < |steps| ==> !(steps[j].Timeout? && steps[j].throws)
  {
    if i == 0 {
      polls, steps := [LP.INITIAL], [];
    } else {
      polls, steps := RunProjects(states, acts, batchSize, digest, i - 1);
      StepAt(states, acts, batchSize, digest, i - 1);
      StepProjects(states[i - 1], acts[i - 1], states[i], batchSize, digest);
      if PollAction(acts[i - 1]).Some? {
        LP.RunExtends(polls, steps, batchSize, PollAction(acts[i - 1]).value);
        polls, steps := polls + [states[i].poll], steps + [PollAction(acts[i - 1]).value];
      }
    }
  }

  lemma StepProjects(s: Server, a: Action, s': Server, batchSize: int, digest: string -> string)
    requires Steps(s, a, s', batchSize, digest)
    ensures PollAction(a).None? ==> s'.poll == s.poll
    ensures PollAction(a).Some? ==>
              var p := PollAction(a).value;
              LP.Enabled(s.poll, p) && s'.poll == LP.Apply(s.poll, p, batchSize) && !(p.Timeout? && p.throws)
  {
    if a.Expire? {
      TimeoutCompares(s, a, digest);
    }
  }

  // ---------- The imperative code ----------

  class Admin {
    const poll: LP.Listener
    const cache: Listener
    var params: map<Client, Params>

    ghost predicate Valid()
      reads this, cache
    {
      cache.Valid()
    }

    ghost function View(): Server
      reads this, poll, cache
    {
      Server(poll.View(), cache.history, params)
    }

    /** Over an initialised cache. */
    constructor (cache: Listener, batchSize: int)
      requires cache.Valid() && |cache.history| == 1
      ensures Valid() && this.cache == cache && fresh(poll) && poll.notifyBatchSize == batchSize
      ensures View() == Server(LP.INITIAL, cache.history, map[])
      ensures CachesOk(cache.history, cache.digest)
    {
      this.cache := cache;
      poll := new LP.Listener(batchSize);
      params := map[];
    }

    /** What a client keeps of fetchConfig and reports for a group. */
    method Fetch(g: Group) returns (report: string)
      requires Valid()
      ensures report == Reported(cache.cache[g])
    {
      var md5, time, _ := cache.FetchConfig(g, (_: Group, json: string) => json);
      report := md5 + "," + Show(time);
    }

    /** compareChangedGroup, as the protocol sees it. */
    method Compare(request: Params, env: Env) returns (r: Option<seq<Group>>)
      requires Valid()
      modifies cache
      ensures Valid() && old(cache.history) <= cache.history
      ensures var during := cache.history[|old(cache.history)|..];
              CachesOk(during, cache.digest) && Compares(old(cache.history), during, request, r)
              && old(cache.history) + during == cache.history
      ensures Reports(request, old(cache.cache)) && Quiet(env) && DigestOk(cache.digest) ==>
                r == Some([]) && cache.history == old(cache.history)
    {
      ghost var start := cache.history;
      if Reports(request, cache.cache) && DigestOk(cache.digest) {
        ReportsEcho(cache.cache, request, cache.digest);
      }
      r := cache.CompareChangedGroup(request, env);
      assert start + cache.history[|start|..] == cache.history;
    }

    /**
     doLongPolling: None stands for the exception on invalid parameters. A client that reports what
     the cache holds, while nobody writes, is handed to the scheduler.
     */
    method DoLongPolling(c: Client, request: Params, env: Env) returns (r: Option<seq<Group>>)
      requires Valid() && c !in poll.known
      modifies this, poll, cache
      ensures Valid() && old(cache.history) <= cache.history
      ensures var a := Arrive(c, request, cache.history[|old(cache.history)|..], r);
              Enabled(old(View()), a, cache.digest) && View() == Apply(old(View()), a, poll.notifyBatchSize)
      ensures r.Some? && r.value != [] ==>
                poll.answers == old(poll.answers) + multiset{c} && poll.submitted == old(poll.submitted)
      ensures r.Some? && r.value != [] && LP.Accounts(old(poll.View())) ==>
                poll.answers[c] == 1 && !LP.Waits(poll.View(), c)
      ensures r == Some([]) ==> c in poll.submitted && poll.answers == old(poll.answers)
      ensures r.None? ==> poll.View() == old(poll.View())
      ensures Reports(request, old(cache.cache)) && Quiet(env) && DigestOk(cache.digest) ==>
                r == Some([]) && c in poll.submitted && cache.history == old(cache.history)
    {
      if LP.Accounts(poll.View()) {
        assert LP.Account(poll.View(), c, 0);
      }
      r := Compare(request, env);
      if r.Some? {
        poll.DoLongPolling(c, r.value != []);
        params := params[c := request];
      }
    }

    /** on*Changed: a change that is not empty updates the cache and asks for a data-change task. */
    method OnChanged(empty: bool, p: Put) returns (notify: bool)
      requires Valid()
      modifies cache
      ensures Valid() && notify == !empty
      ensures empty ==> View() == old(View())
      ensures !empty ==> Enabled(old(View()), Update(cache.cache), cache.digest) &&
                         View() == Apply(old(View()), Update(cache.cache), poll.notifyBatchSize)
      ensures !empty ==> cache.cache[p.group].json == p.json && cache.cache[p.group].time == p.now &&
                         forall g :: g != p.group ==> cache.cache[g] == old(cache.cache)[g]
    {
      notify := cache.OnChanged(empty, p);
    }

    /** The timeout task compares the parameters of the request it was made for; it never throws, and answers its client. */
    method RunTimeout(c: Client, env: Env) returns (r: Option<seq<Group>>)
      requires Valid() && LP.Accounts(poll.View()) && ParamsOk(View()) && c in poll.timeouts
      modifies poll, cache
      ensures Valid() && old(cache.history) <= cache.history
      ensures var a := Expire(c, cache.history[|old(cache.history)|..], r);
              Enabled(old(View()), a, cache.digest) && View() == Apply(old(View()), a, poll.notifyBatchSize)
      ensures r.Some? && poll.answers[c] == 1 && c !in poll.timeouts
    {
      assert LP.Account(poll.View(), c, 0) && LP.Waits(poll.View(), c);
      r := Compare(params[c], env);
      poll.RunTimeout(c, r.None?);
    }
  }

  lemma ReportsEcho(c: Cache, params: Params, digest: string -> string)
    requires DigestOk(digest) && CacheOk(c, digest) && Reports(params, c)
    ensures Echoes(params, c)
  {
    forall g ensures Echo(params(g), c[g].md5) {
      ReportParses(c[g], digest);
    }
  }
}
