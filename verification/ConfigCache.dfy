/**
 The md5 cache of the long-polling listener, and the comparison of a client's md5s with it.
 Other threads put entries at any point; `history` is every content the cache has had, in order.
 */
module ConfigCache {
  import opened Options

  datatype Group = AppAuth | Plugin | Rule | Selector | MetaData

  /** ConfigGroupEnum.values(), which is also the order in which the cache is refreshed. */
  const GROUPS: seq<Group> := [AppAuth, Plugin, Rule, Selector, MetaData]

  /** A ConfigDataCache object; `id` is its identity. */
  datatype Entry = Entry(id: nat, group: Group, json: string, md5: string, time: int)

  type Cache = map<Group, Entry>

  /** A put by some other thread: new JSON of a group and the time of the put. */
  datatype Put = Put(group: Group, json: string, now: int)

  datatype LockOutcome = Locked | NotLocked | Interrupted

  // ---------- Request parameters ----------

  /** StringUtils.split on ',': the non-empty tokens. `token` is the token being read. */
  function SplitFrom(s: string, token: string): seq<string> {
    if s == "" then if token == "" then [] else [token]
    else if s[0] == ',' then (if token == "" then [] else [token]) + SplitFrom(s[1..], "")
    else SplitFrom(s[1..], token + [s[0]])
  }

  function Digits(s: string, value: nat): Option<nat> {
    if s == "" then Some(value)
    else if '0' <= s[0] <= '9' then Digits(s[1..], 10 * value + (s[0] as int - '0' as int))
    else None
  }

  /** NumberUtils.toLong: zero for anything that is not a 64-bit decimal number. */
  function ToLong(s: string): int {
    var signed := s != "" && (s[0] == '-' || s[0] == '+');
    var body := if signed then s[1..] else s;
    var v := if body == "" then None else Digits(body, 0);
    if v.None? then 0
    else
      var size: int := v.value;
      var n := if signed && s[0] == '-' then -size else size;
      if -0x8000_0000_0000_0000 <= n < 0x8000_0000_0000_0000 then n else 0
  }

  /** The client's md5 and modification time for a group; None when the parameter is invalid. */
  function ParseParam(p: Option<string>): Option<(string, int)> {
    if p.None? then None
    else
      var parts := SplitFrom(p.value, "");
      if |parts| == 2 then Some((parts[0], ToLong(parts[1]))) else None
  }

  lemma {:induction false} SplitToken(a: string, rest: string, token: string)
    requires ',' !in a
    ensures SplitFrom(a + rest, token) == SplitFrom(rest, token + a)
  {
    if a == "" {
      assert a + rest == rest && token + a == token;
    } else {
      assert (a + rest)[1..] == a[1..] + rest;
      assert token + [a[0]] + a[1..] == token + a;
      SplitToken(a[1..], rest, token + [a[0]]);
    }
  }

  predicate Commas(s: string) { forall c :: c in s ==> c == ',' }

  predicate Token(s: string) { s != "" && ',' !in s }

  lemma {:induction false} SkipCommas(c: string, rest: string)
    requires Commas(c)
    ensures SplitFrom(c + rest, "") == SplitFrom(rest, "")
  {
    if c == "" {
      assert c + rest == rest;
    } else {
      assert c[0] in c && (c + rest)[1..] == c[1..] + rest;
      assert forall d :: d in c[1..] ==> d in c;
      SkipCommas(c[1..], rest);
    }
  }

  /** One token and the commas before it, with a comma or nothing after it. */
  lemma ReadToken(lead: string, token: string, rest: string)
    requires Commas(lead) && Token(token) && (rest == "" || rest[0] == ',')
    ensures SplitFrom(lead + token + rest, "") == [token] + SplitFrom(rest, "")
  {
    assert lead + token + rest == lead + (token + rest);
    SkipCommas(lead, token + rest);
    SplitToken(token, rest, "");
    assert "" + token == token;
  }

  lemma {:induction false} LeadingCommas(s: string) returns (c: string, rest: string)
    ensures s == c + rest && Commas(c) && (rest == "" || rest[0] != ',')
  {
    if s == "" || s[0] != ',' {
      c, rest := "", s;
    } else {
      c, rest := LeadingCommas(s[1..]);
      assert s == [s[0]] + s[1..];
      c := [s[0]] + c;
    }
  }

  lemma {:induction false} LeadingToken(s: string) returns (a: string, rest: string)
    ensures s == a + rest && ',' !in a && (rest == "" || rest[0] == ',')
    ensures a == "" ==> rest == s
  {
    if s == "" || s[0] == ',' {
      a, rest := "", s;
    } else {
      a, rest := LeadingToken(s[1..]);
      assert s == [s[0]] + s[1..];
      a := [s[0]] + a;
    }
  }

  /** The text is commas only, or it starts with a token. */
  lemma Peel(s: string) returns (lead: string, token: string, rest: string)
    ensures s == lead + token + rest && Commas(lead) && (rest == "" || rest[0] == ',')
    ensures if token == "" then rest == "" && SplitFrom(s, "") == []
            else Token(token) && SplitFrom(s, "") == [token] + SplitFrom(rest, "")
  {
    var more;
    lead, more := LeadingCommas(s);
    token, rest := LeadingToken(more);
    assert lead + more == lead + token + rest;
    if token == "" {
      SkipCommas(lead, "");
      assert lead + "" == s;
    } else {
      ReadToken(lead, token, rest);
    }
  }

  /** Two tokens with commas between them, and any commas around them. */
  ghost predicate TwoTokens(s: string, lead: string, a: string, gap: string, b: string, trail: string) {
    && s == lead + a + (gap + b + trail)
    && Commas(lead) && Commas(gap) && Commas(trail) && gap != "" && Token(a) && Token(b)
  }

  lemma TwoTokensParse(s: string, lead: string, a: string, gap: string, b: string, trail: string)
    requires TwoTokens(s, lead, a, gap, b, trail)
    ensures ParseParam(Some(s)) == Some((a, ToLong(b)))
  {
    assert gap[0] in gap;
    ReadToken(lead, a, gap + b + trail);
    assert trail != "" ==> trail[0] in trail;
    ReadToken(gap, b, trail);
    SkipCommas(trail, "");
    assert trail + "" == trail;
  }

  lemma ParsesTwoTokens(s: string) returns (lead: string, a: string, gap: string, b: string, trail: string)
    requires ParseParam(Some(s)).Some?
    ensures TwoTokens(s, lead, a, gap, b, trail)
  {
    var rest, end, last;
    lead, a, rest := Peel(s);
    gap, b, end := Peel(rest);
    trail, last, end := Peel(end);
    assert trail + last + end == trail;
  }

  /** A parameter is valid exactly if it is two tokens separated by commas. */
  lemma ParamIs(s: string)
    ensures ParseParam(Some(s)).Some? <==> exists lead, a, gap, b, trail :: TwoTokens(s, lead, a, gap, b, trail)
  {
    if ParseParam(Some(s)).Some? {
      var lead, a, gap, b, trail := ParsesTwoTokens(s);
    }
    if lead, a, gap, b, trail :| TwoTokens(s, lead, a, gap, b, trail) {
      TwoTokensParse(s, lead, a, gap, b, trail);
    }
  }

  /** What a client builds from a fetched md5 and time reads back as that md5. */
  lemma EchoParses(md5: string, time: string)
    requires md5 != "" && time != "" && ',' !in md5 && ',' !in time
    ensures ParseParam(Some(md5 + "," + time)) == Some((md5, ToLong(time)))
  {
    var s := md5 + "," + time;
    assert s == "" + md5 + ("," + time + "");
    TwoTokensParse(s, "", md5, ",", time, "");
  }

  // ---------- What a client reports ----------

  function DigitChar(d: nat): char
    requires d < 10
  {
    ('0' as int + d) as char
  }

  function Decimal(n: nat): string {
    if n < 10 then [DigitChar(n)] else Decimal(n / 10) + [DigitChar(n % 10)]
  }

  /** String.valueOf of a long. */
  function Show(t: int): string {
    if t < 0 then "-" + Decimal(-t) else Decimal(t)
  }

  predicate Fits64(t: int) { -0x8000_0000_0000_0000 <= t < 0x8000_0000_0000_0000 }

  lemma {:induction false} DigitsSnoc(s: string, d: nat, v: nat)
    requires d < 10 && Digits(s, v).Some?
    ensures Digits(s + [DigitChar(d)], v) == Some(10 * Digits(s, v).value + d)
  {
    var t := s + [DigitChar(d)];
    if s == "" {
      assert t[1..] == "";
    } else {
      assert t[1..] == s[1..] + [DigitChar(d)];
      DigitsSnoc(s[1..], d, 10 * v + (s[0] as int - '0' as int));
    }
  }

  lemma {:induction false} DecimalReads(n: nat)
    ensures Digits(Decimal(n), 0) == Some(n)
    ensures Decimal(n) != "" && '0' <= Decimal(n)[0] <= '9' && ',' !in Decimal(n)
  {
    if n < 10 {
      assert [DigitChar(n)][1..] == "";
    } else {
      DecimalReads(n / 10);
      DigitsSnoc(Decimal(n / 10), n % 10, 0);
    }
  }

  /** A printed time reads back as itself. */
  lemma ShowReads(t: int)
    ensures Show(t) != "" && ',' !in Show(t)
    ensures Fits64(t) ==> ToLong(Show(t)) == t
  {
    if t < 0 {
      DecimalReads(-t);
      assert ("-" + Decimal(-t))[1..] == Decimal(-t);
    } else {
      DecimalReads(t);
    }
  }

  /** What a client that holds an entry sends for its group. */
  function Reported(e: Entry): string { e.md5 + "," + Show(e.time) }

  /** What is assumed of md5: its text is a token. */
  ghost predicate DigestOk(digest: string -> string) {
    forall s :: digest(s) != "" && ',' !in digest(s)
  }

  /** A reported entry is read back as its own md5 and time. */
  lemma ReportParses(e: Entry, digest: string -> string)
    requires DigestOk(digest) && e.md5 == digest(e.json)
    ensures Echo(Some(Reported(e)), e.md5)
    ensures Fits64(e.time) ==> ParseParam(Some(Reported(e))) == Some((e.md5, e.time))
  {
    ShowReads(e.time);
    EchoParses(e.md5, Show(e.time));
  }

  // ---------- What a comparison may say ----------

  /** The verdict on a group follows from some content the cache had during `span`. */
  ghost predicate Justified(span: seq<Cache>, g: Group, md5: string, changed: bool) {
    exists i :: 0 <= i < |span| && g in span[i] && (span[i][g].md5 != md5) == changed
  }

  /** What the cache held at one moment justifies a verdict on any span that contains the moment. */
  lemma Witness(h: seq<Cache>, seen: nat, at: nat, g: Group, md5: string)
    requires seen <= at < |h| && g in h[at]
    ensures Justified(h[seen..], g, md5, h[at][g].md5 != md5)
  {
    assert h[seen..][at - seen] == h[at];
  }

  /** A verdict stays justified when the span grows at either end. */
  lemma JustifiedLonger(h: seq<Cache>, from: nat, h': seq<Cache>, from': nat, g: Group, md5: string, changed: bool)
    requires from' <= from <= |h| && h <= h' && Justified(h[from..], g, md5, changed)
    ensures Justified(h'[from'..], g, md5, changed)
  {
    var i :| 0 <= i < |h| - from && g in h[from..][i] && (h[from..][i][g].md5 != md5) == changed;
    assert h'[from'..][from - from' + i] == h[from..][i];
  }

  /** Verdicts on the first n groups. */
  ghost predicate Verdicts(span: seq<Cache>, params: Group -> Option<string>, changed: seq<Group>, n: nat)
    requires n <= |GROUPS|
  {
    forall j :: 0 <= j < n ==> Verdict(span, GROUPS[j], params(GROUPS[j]), GROUPS[j] in changed)
  }

  ghost predicate Verdict(span: seq<Cache>, g: Group, param: Option<string>, changed: bool) {
    ParseParam(param).Some? && Justified(span, g, ParseParam(param).value.0, changed)
  }

  lemma VerdictsGrow(h: seq<Cache>, h': seq<Cache>, from: nat, params: Group -> Option<string>,
                     changed: seq<Group>, changed': seq<Group>, n: nat)
    requires n <= |GROUPS| && from <= |h| && h <= h' && Verdicts(h[from..], params, changed, n)
    requires forall j :: 0 <= j < n ==> (GROUPS[j] in changed <==> GROUPS[j] in changed')
    ensures Verdicts(h'[from..], params, changed', n)
  {
    forall j | 0 <= j < n ensures Verdict(h'[from..], GROUPS[j], params(GROUPS[j]), GROUPS[j] in changed') {
      assert Verdict(h[from..], GROUPS[j], params(GROUPS[j]), GROUPS[j] in changed);
      JustifiedLonger(h, from, h', from, GROUPS[j], ParseParam(params(GROUPS[j])).value.0, GROUPS[j] in changed);
    }
  }

  function Position(g: Group): (k: nat)
    ensures k < |GROUPS| && GROUPS[k] == g
  {
    match g
    case AppAuth => 0
    case Plugin => 1
    case Rule => 2
    case Selector => 3
    case MetaData => 4
  }

  /** The client reports the md5 that `c` holds, for every group. */
  ghost predicate Echoes(params: Group -> Option<string>, c: Cache)
    requires Complete(c)
  {
    forall g :: Echo(params(g), c[g].md5)
  }

  ghost predicate Echo(param: Option<string>, md5: string) {
    ParseParam(param).Some? && ParseParam(param).value.0 == md5
  }

  ghost predicate Quiet(env: Env) { forall k :: env.others(k) == [] }

  /** If the md5 of a group does not change during a comparison, the verdict is exact. */
  lemma QuietVerdict(span: seq<Cache>, g: Group, md5: string, changed: bool, held: string)
    requires Justified(span, g, md5, changed)
    requires forall i :: 0 <= i < |span| && g in span[i] ==> span[i][g].md5 == held
    ensures changed <==> md5 != held
  {
  }

  ghost predicate EntriesOk(c: Cache, digest: string -> string, objects: nat) {
    forall g :: g in c ==> c[g].group == g && c[g].md5 == digest(c[g].json) && c[g].id < objects
  }

  ghost predicate Complete(c: Cache) { forall g :: g in c }

  /** Everything other threads and the database contribute to one comparison. */
  datatype Env = Env(others: nat -> seq<Put>, lock: Group -> LockOutcome, db: (Group, nat) -> string, clock: nat -> int)

  /** The cache holds what the database had for a group at a moment. */
  ghost predicate Loaded(c: Cache, env: Env, g: Group, tick: nat) {
    g in c && c[g].json == env.db(g, tick) && c[g].time == env.clock(tick)
  }

  /** During the span the cache held what the database had for a group at a moment. */
  ghost predicate LoadedIn(span: seq<Cache>, env: Env, g: Group, tick: nat) {
    exists i :: 0 <= i < |span| && Loaded(span[i], env, g, tick)
  }

  /** A client that differs from the entry held and claims to be newer makes the cache reload, under the lock. */
  ghost predicate Reloads(e: Entry, md5: string, time: int, lock: LockOutcome) {
    e.md5 != md5 && e.time < time && lock == Locked
  }

  ghost predicate NoReload(param: Option<string>, e: Entry, lock: LockOutcome) {
    ParseParam(param).Some? && !Reloads(e, ParseParam(param).value.0, ParseParam(param).value.1, lock)
  }

  ghost predicate NoneReloads(params: Group -> Option<string>, c: Cache, env: Env)
    requires Complete(c)
  {
    forall g :: NoReload(params(g), c[g], env.lock(g))
  }

  /** The first n groups are listed in order, exactly those whose md5 the cache does not hold. */
  ghost predicate Differing(params: Group -> Option<string>, c: Cache, changed: seq<Group>, n: nat)
    requires Complete(c) && n <= |GROUPS|
  {
    forall j :: 0 <= j < n ==> (GROUPS[j] in changed <==> !Echo(params(GROUPS[j]), c[GROUPS[j]].md5))
  }

  ghost predicate InGroupOrder(gs: seq<Group>) {
    forall a, b :: 0 <= a < b < |gs| ==> Position(gs[a]) < Position(gs[b])
  }

  lemma DifferingNext(params: Group -> Option<string>, c: Cache, changed: seq<Group>, i: nat, changed': seq<Group>)
    requires Complete(c) && i < |GROUPS| && Differing(params, c, changed, i)
    requires forall g :: g in changed ==> g in GROUPS[..i]
    requires changed' == if Echo(params(GROUPS[i]), c[GROUPS[i]].md5) then changed else changed + [GROUPS[i]]
    ensures Differing(params, c, changed', i + 1)
  {
    forall j | 0 <= j < i ensures GROUPS[j] in changed' <==> GROUPS[j] in changed {
      EarlierGroup(GROUPS[j], i);
      EarlierGroup(GROUPS[j], j);
    }
    EarlierGroup(GROUPS[i], i);
  }

  lemma VerdictsParse(span: seq<Cache>, params: Group -> Option<string>, changed: seq<Group>)
    requires Verdicts(span, params, changed, |GROUPS|)
    ensures forall g :: ParseParam(params(g)).Some?
  {
    forall g ensures ParseParam(params(g)).Some? {
      var j := Position(g);
      assert Verdict(span, GROUPS[j], params(GROUPS[j]), GROUPS[j] in changed);
    }
  }

  /** A client that reports the md5s held asks for no reload, and none of its groups differs. */
  lemma EchoesDiffer(params: Group -> Option<string>, c: Cache, env: Env, changed: seq<Group>)
    requires Complete(c) && Echoes(params, c)
    ensures NoneReloads(params, c, env)
    ensures Differing(params, c, changed, |GROUPS|) ==> changed == []
  {
    forall g ensures NoReload(params(g), c[g], env.lock(g)) {
      assert Echo(params(g), c[g].md5);
    }
    if changed != [] {
      var j := Position(changed[0]);
      assert GROUPS[j] in changed && Echo(params(GROUPS[j]), c[GROUPS[j]].md5);
    }
  }

  lemma EarlierGroup(g: Group, i: nat)
    requires i < |GROUPS|
    ensures Position(GROUPS[i]) == i && (g in GROUPS[..i] ==> Position(g) < i)
  {
  }

  lemma VerdictsNext(h: seq<Cache>, h': seq<Cache>, from: nat, params: Group -> Option<string>,
                     changed: seq<Group>, i: nat, stale: bool, changed': seq<Group>)
    requires i < |GROUPS| && from < |h| && h <= h' && Verdicts(h[from..], params, changed, i)
    requires forall g :: g in changed ==> g in GROUPS[..i]
    requires Verdict(h'[|h| - 1..], GROUPS[i], params(GROUPS[i]), stale)
    requires changed' == if stale then changed + [GROUPS[i]] else changed
    ensures Verdicts(h'[from..], params, changed', i + 1)
  {
    var g := GROUPS[i];
    JustifiedLonger(h', |h| - 1, h', from, g, ParseParam(params(g)).value.0, stale);
    EarlierGroup(g, i);
    forall j | 0 <= j < i ensures GROUPS[j] in changed <==> GROUPS[j] in changed' {
      EarlierGroup(GROUPS[j], j);
    }
    VerdictsGrow(h, h', from, params, changed, changed', i);
  }

  lemma OrderNext(changed: seq<Group>, i: nat)
    requires i < |GROUPS| && InGroupOrder(changed) && forall g :: g in changed ==> g in GROUPS[..i]
    ensures InGroupOrder(changed + [GROUPS[i]])
    ensures forall g :: g in changed + [GROUPS[i]] ==> g in GROUPS[..i + 1]
  {
    assert GROUPS[..i + 1] == GROUPS[..i] + [GROUPS[i]];
    forall a | 0 <= a < |changed| ensures Position(changed[a]) < Position(GROUPS[i]) {
      EarlierGroup(changed[a], i);
    }
  }

  /** Loading group i after the groups before it. */
  lemma LoadedNext(c: Cache, c': Cache, env: Env, tick: nat, i: nat)
    requires i < |GROUPS| && Loaded(c', env, GROUPS[i], tick + i)
    requires forall g :: g != GROUPS[i] && g in c ==> g in c' && c'[g] == c[g]
    ensures (forall g :: Position(g) < i ==> Loaded(c, env, g, tick + Position(g))) ==>
              forall g :: Position(g) < i + 1 ==> Loaded(c', env, g, tick + Position(g))
  {
  }

  lemma LoadedInNext(h: seq<Cache>, h': seq<Cache>, env: Env, tick: nat, i: nat)
    requires i < |GROUPS| && h <= h' && h' != [] && Loaded(h'[|h'| - 1], env, GROUPS[i], tick + i)
    requires forall g :: Position(g) < i ==> LoadedIn(h, env, g, tick + Position(g))
    ensures forall g :: Position(g) < i + 1 ==> LoadedIn(h', env, g, tick + Position(g))
  {
    forall g | Position(g) < i ensures LoadedIn(h', env, g, tick + Position(g)) {
      var k :| 0 <= k < |h| && Loaded(h[k], env, g, tick + Position(g));
      assert h'[k] == h[k];
    }
  }

  class Listener {
    const digest: string -> string
    var cache: Cache
    var objects: nat
    ghost var history: seq<Cache>

    ghost predicate Valid()
      reads this
    {
      && Complete(cache) && EntriesOk(cache, digest, objects)
      && history != [] && history[|history| - 1] == cache
      && forall i :: 0 <= i < |history| ==> Complete(history[i]) && EntriesOk(history[i], digest, objects)
    }

    /** afterPropertiesSet: every group is loaded before anything else can read the cache. */
    constructor (digest: string -> string, db: Group -> string, now: int)
      ensures Valid() && this.digest == digest && history == [cache]
      ensures forall g :: cache[g].json == db(g) && cache[g].time == now
    {
      var c := map[AppAuth := Entry(0, AppAuth, db(AppAuth), digest(db(AppAuth)), now),
                   Plugin := Entry(1, Plugin, db(Plugin), digest(db(Plugin)), now),
                   Rule := Entry(2, Rule, db(Rule), digest(db(Rule)), now),
                   Selector := Entry(3, Selector, db(Selector), digest(db(Selector)), now),
                   MetaData := Entry(4, MetaData, db(MetaData), digest(db(MetaData)), now)];
      forall g: Group ensures g in c && c[g].json == db(g) && c[g].time == now {
        match g
        case AppAuth =>
        case Plugin =>
        case Rule =>
        case Selector =>
        case MetaData =>
      }
      this.digest := digest;
      cache := c;
      objects := 5;
      history := [c];
    }

    method UpdateCache(p: Put)
      requires Valid()
      modifies this
      ensures Valid() && history == old(history) + [cache]
      ensures cache == old(cache)[p.group := Entry(old(objects), p.group, p.json, digest(p.json), p.now)]
    {
      cache := cache[p.group := Entry(objects, p.group, p.json, digest(p.json), p.now)];
      objects := objects + 1;
      history := history + [cache];
    }

    /** on*Changed: an empty list is ignored, otherwise the cache is updated and a notification is due. */
    method OnChanged(empty: bool, p: Put) returns (notify: bool)
      requires Valid()
      modifies this
      ensures Valid() && old(history) <= history && notify == !empty
      ensures empty ==> history == old(history) && cache == old(cache)
      ensures !empty ==> history == old(history) + [cache]
      ensures !empty ==> cache == old(cache)[p.group := Entry(old(objects), p.group, p.json, digest(p.json), p.now)]
    {
      if !empty {
        UpdateCache(p);
      }
      notify := !empty;
    }

    method OtherThreads(puts: seq<Put>)
      requires Valid()
      modifies this
      ensures Valid() && old(history) <= history
      ensures puts == [] ==> history == old(history) && cache == old(cache)
    {
      for i := 0 to |puts|
        invariant Valid() && old(history) <= history
        invariant i == 0 ==> history == old(history) && cache == old(cache)
      {
        UpdateCache(puts[i]);
      }
    }

    /** Reloads the five groups from the database, other threads putting in between. */
    method RefreshLocalCache(env: Env, tick: nat)
      requires Valid()
      modifies this
      ensures Valid() && old(history) <= history
      ensures Quiet(env) ==> forall g :: Loaded(cache, env, g, tick + Position(g))
      ensures forall g :: LoadedIn(history, env, g, tick + Position(g))
    {
      for i := 0 to |GROUPS|
        invariant Valid() && old(history) <= history
        invariant Quiet(env) ==> forall g :: Position(g) < i ==> Loaded(cache, env, g, tick + Position(g))
        invariant forall g :: Position(g) < i ==> LoadedIn(history, env, g, tick + Position(g))
      {
        ghost var earlier := history;
        OtherThreads(env.others(tick + i));
        ghost var before := cache;
        UpdateCache(Put(GROUPS[i], env.db(GROUPS[i], tick + i), env.clock(tick + i)));
        LoadedNext(before, cache, env, tick, i);
        LoadedInNext(earlier, history, env, tick, i);
      }
    }

    /** `entry` was read from the cache when its content was history[seen]. */
    method CheckCacheDelayAndUpdate(entry: Entry, ghost seen: nat, clientMd5: string, clientTime: int, env: Env, tick: nat)
      returns (changed: bool)
      requires Valid() && seen < |history| && history[seen][entry.group] == entry
      modifies this
      ensures Valid() && old(history) <= history
      ensures Justified(history[seen..], entry.group, clientMd5, changed)
      ensures entry.md5 == clientMd5 ==> !changed && history == old(history) && cache == old(cache)
      ensures entry.md5 != clientMd5 && (entry.time >= clientTime || env.lock(entry.group) != Locked) ==>
                changed && history == old(history)
      ensures entry.md5 != clientMd5 && entry.time < clientTime && env.lock(entry.group) == Locked ==>
                (changed <==> clientMd5 != cache[entry.group].md5) &&
                (Quiet(env) && old(cache[entry.group]) == entry ==>
                   Loaded(cache, env, entry.group, tick + 1 + Position(entry.group)))
    {
      Witness(history, seen, seen, entry.group, clientMd5);
      if entry.md5 == clientMd5 {
        return false;
      }
      if entry.time >= clientTime {
        return true;
      }
      if env.lock(entry.group) != Locked {
        return true;
      }
      changed := CheckLocked(entry, clientMd5, env, tick);
      Witness(history, seen, |history| - 1, entry.group, clientMd5);
    }

    /**
     The part under the lock: an entry that nobody has replaced is reloaded from the database, and
     the verdict is exact for what the cache then holds.
     */
    method CheckLocked(entry: Entry, clientMd5: string, env: Env, tick: nat) returns (changed: bool)
      requires Valid()
      modifies this
      ensures Valid() && old(history) <= history
      ensures changed <==> clientMd5 != cache[entry.group].md5
      ensures Quiet(env) && old(cache)[entry.group].id == entry.id ==>
                Loaded(cache, env, entry.group, tick + 1 + Position(entry.group))
      ensures Quiet(env) && old(cache)[entry.group].id != entry.id ==> history == old(history)
    {
      OtherThreads(env.others(tick));
      var latest := cache[entry.group];
      if latest.id == entry.id {
        RefreshLocalCache(env, tick + 1);
        OtherThreads(env.others(tick + 6));
        latest := cache[entry.group];
      }
      changed := latest.md5 != clientMd5;
    }

    /** Reads the entry of a group and checks a client's md5 and time against it. */
    method CompareHeld(g: Group, md5: string, time: int, env: Env, tick: nat, ghost from: nat) returns (stale: bool)
      requires Valid() && from < |history|
      modifies this
      ensures Valid() && old(history) <= history && Justified(history[from..], g, md5, stale)
      ensures !Reloads(old(cache[g]), md5, time, env.lock(g)) ==>
                history == old(history) && cache == old(cache) && stale == (md5 != old(cache[g].md5))
      ensures Reloads(old(cache[g]), md5, time, env.lock(g)) && Quiet(env) ==>
                Loaded(cache, env, g, tick + 1 + Position(g)) && stale == (md5 != cache[g].md5)
    {
      var entry := cache[g];
      ghost var seen := |history| - 1;
      stale := CheckCacheDelayAndUpdate(entry, seen, md5, time, env, tick);
      JustifiedLonger(history, seen, history, from, g, md5, stale);
    }

    /** One round of the comparison loop: parse the parameter, read the cache, check the client's md5. */
    method CompareGroup(g: Group, param: Option<string>, env: Env, tick: nat) returns (r: Option<bool>)
      requires Valid()
      modifies this
      ensures Valid() && old(history) <= history
      ensures r.None? <==> ParseParam(param).None?
      ensures r.Some? ==> Verdict(history[|old(history)| - 1..], g, param, r.value)
      ensures Quiet(env) && NoReload(param, old(cache[g]), env.lock(g)) ==>
                history == old(history) && cache == old(cache) && r == Some(!Echo(param, old(cache[g].md5)))
      ensures Quiet(env) && r.Some? && !NoReload(param, old(cache[g]), env.lock(g)) ==>
                Loaded(cache, env, g, tick + 2 + Position(g)) && r == Some(!Echo(param, cache[g].md5))
    {
      var parsed := ParseParam(param);
      if parsed.None? {
        return None;
      }
      var (md5, time) := parsed.value;
      OtherThreads(env.others(tick));
      var stale := CompareHeld(g, md5, time, env, tick + 1, |old(history)| - 1);
      r := Some(stale);
    }

    /**
     compareChangedGroup. None stands for the exception on an invalid parameter. A group is reported
     or omitted only on the word of an md5 that the cache held for it during the call.
     */
    method CompareChangedGroup(params: Group -> Option<string>, env: Env) returns (r: Option<seq<Group>>)
      requires Valid()
      modifies this
      ensures Valid() && old(history) <= history
      ensures r.None? <==> exists g :: ParseParam(params(g)).None?
      ensures r.Some? ==> Verdicts(history[|old(history)| - 1..], params, r.value, |GROUPS|)
      ensures r.Some? ==> InGroupOrder(r.value)
      ensures Quiet(env) && NoneReloads(params, old(cache), env) ==>
                history == old(history) && r.Some? && Differing(params, old(cache), r.value, |GROUPS|)
      ensures Echoes(params, old(cache)) && Quiet(env) ==> r == Some([]) && history == old(history)
    {
      ghost var from := |history| - 1;
      r := Some([]);
      var i := 0;
      while i < |GROUPS| && r.Some?
        invariant 0 <= i <= |GROUPS|
        invariant Valid() && old(history) <= history
        invariant r.None? ==> exists g :: ParseParam(params(g)).None?
        invariant r.Some? ==> forall g :: g in r.value ==> g in GROUPS[..i]
        invariant r.Some? ==> Verdicts(history[from..], params, r.value, i)
        invariant r.Some? ==> InGroupOrder(r.value)
        invariant Quiet(env) && NoneReloads(params, old(cache), env) ==>
                    history == old(history) && cache == old(cache) && r.Some? && Differing(params, old(cache), r.value, i)
      {
        var g := GROUPS[i];
        ghost var before := history;
        var stale := CompareGroup(g, params(g), env, 8 * i);
        ghost var changed := r.value;
        r := AddVerdict(from, before, params, r.value, i, stale);
        if Quiet(env) && NoneReloads(params, old(cache), env) {
          assert NoReload(params(g), old(cache[g]), env.lock(g));
          DifferingNext(params, old(cache), changed, i, r.value);
        }
        i := i + 1;
      }
      if r.Some? {
        VerdictsParse(history[from..], params, r.value);
      }
      if Echoes(params, old(cache)) {
        EchoesDiffer(params, old(cache), env, if r.Some? then r.value else []);
      }
    }

    /** changedGroup.add, when the round asks for it. */
    method AddVerdict(ghost from: nat, ghost before: seq<Cache>, ghost params: Group -> Option<string>,
                      changed: seq<Group>, i: nat, stale: Option<bool>) returns (r: Option<seq<Group>>)
      requires i < |GROUPS| && from < |before| && before <= history
      requires Verdicts(before[from..], params, changed, i) && InGroupOrder(changed)
      requires forall g :: g in changed ==> g in GROUPS[..i]
      requires stale.Some? ==> Verdict(history[|before| - 1..], GROUPS[i], params(GROUPS[i]), stale.value)
      ensures r == if stale.None? then None else if stale.value then Some(changed + [GROUPS[i]]) else Some(changed)
      ensures r.Some? ==> InGroupOrder(r.value) && (forall g :: g in r.value ==> g in GROUPS[..i + 1])
      ensures r.Some? ==> Verdicts(history[from..], params, r.value, i + 1)
    {
      if stale.None? {
        return None;
      }
      var g := GROUPS[i];
      var next := if stale.value then changed + [g] else changed;
      OrderNext(changed, i);
      VerdictsNext(before, history, from, params, changed, i, stale.value, next);
      r := Some(next);
    }

    /** fetchConfig: what the current cache holds for a group; `decode` reads the JSON of a group. */
    method FetchConfig<T>(g: Group, decode: (Group, string) -> T) returns (md5: string, time: int, data: T)
      requires Valid()
      ensures md5 == cache[g].md5 == digest(cache[g].json) && time == cache[g].time
      ensures data == decode(g, cache[g].json)
    {
      var config := cache[g];
      md5, time, data := config.md5, config.time, decode(g, config.json);
    }
  }
}
