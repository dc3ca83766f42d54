/**
 The snowflake id generator: a clock-driven state machine whose ids pack a timestamp, a datacenter,
 a worker and a sequence number into one 64-bit integer.
 */
module Snowflake {
  import opened Options

  const MAX_WORKER_ID: nat := 31
  const MAX_DATACENTER_ID: nat := 31
  const SEQUENCE_MASK: nat := 4095
  const WORKER_ID_SHIFT: nat := 12
  const DATACENTER_ID_SHIFT: nat := 17
  const TIMESTAMP_LEFT_SHIFT: nat := 22

  // ---------- 64-bit operations ----------

  const TWO_64: nat := 0x1_0000_0000_0000_0000
  const TWO_63: nat := 0x8000_0000_0000_0000

  function Pow2(k: nat): (p: nat)
    ensures p > 0
  {
    if k == 0 then 1 else 2 * Pow2(k - 1)
  }

  function Unsigned(x: int): nat { x % TWO_64 }

  function Signed(x: nat): int { if x % TWO_64 < TWO_63 then x % TWO_64 else x % TWO_64 - TWO_64 }

  function BitOr(a: nat, b: nat): nat {
    if a == 0 && b == 0 then 0
    else 2 * BitOr(a / 2, b / 2) + (if a % 2 == 1 || b % 2 == 1 then 1 else 0)
  }

  function BitAnd(a: nat, b: nat): nat {
    if a == 0 || b == 0 then 0
    else 2 * BitAnd(a / 2, b / 2) + (if a % 2 == 1 && b % 2 == 1 then 1 else 0)
  }

  /** Java's `|`, `&` and `<<` on longs. */
  function Or(a: int, b: int): int { Signed(BitOr(Unsigned(a), Unsigned(b))) }
  function And(a: int, b: int): int { Signed(BitAnd(Unsigned(a), Unsigned(b))) }
  function Shl(a: int, k: nat): int { Signed(Unsigned(a * Pow2(k))) }

  lemma {:induction false} OrDisjoint(a: nat, b: nat, k: nat)
    requires b < Pow2(k)
    ensures BitOr(a * Pow2(k), b) == a * Pow2(k) + b
    decreases k, a
  {
    if k == 0 {
      OrZero(a);
    } else {
      var p := Pow2(k - 1);
      assert a * Pow2(k) == 2 * (a * p);
      if a * Pow2(k) != 0 || b != 0 {
        OrDisjoint(a, b / 2, k - 1);
        assert (a * Pow2(k)) / 2 == a * p && (a * Pow2(k)) % 2 == 0;
      }
    }
  }

  lemma {:induction false} OrZero(a: nat)
    ensures BitOr(a, 0) == a
  {
    if a != 0 {
      OrZero(a / 2);
    }
  }

  lemma AndStep(a: nat, p: nat)
    requires a != 0 && p > 0
    ensures BitAnd(a, 2 * p - 1) == 2 * BitAnd(a / 2, p - 1) + a % 2
  {
    var m: nat := 2 * p - 1;
    assert m / 2 == p - 1 && m % 2 == 1;
  }

  /** Masking with 2^k - 1 is the remainder modulo 2^k. */
  lemma {:induction false} AndMask(a: nat, k: nat)
    ensures BitAnd(a, Pow2(k) - 1) == a % Pow2(k)
    decreases k
  {
    if k == 0 {
      assert a % 1 == 0;
    } else if a == 0 {
      ModUnique(0, Pow2(k), 0, 0);
    } else {
      var p := Pow2(k - 1);
      assert BitAnd(a, 2 * p - 1) == 2 * ((a / 2) % p) + a % 2 by {
        AndMask(a / 2, k - 1);
        AndStep(a, p);
      }
      HalfMod(a, p);
    }
  }

  lemma HalfMod(a: nat, p: nat)
    requires p > 0
    ensures a % (2 * p) == 2 * ((a / 2) % p) + a % 2
  {
    var h := a / 2;
    assert a == 2 * h + a % 2;
    assert h == p * (h / p) + h % p;
    assert a == (2 * p) * (h / p) + (2 * (h % p) + a % 2);
    ModUnique(a, 2 * p, h / p, 2 * (h % p) + a % 2);
  }

  lemma ModUnique(a: nat, m: nat, q: nat, r: nat)
    requires m > 0 && r < m && a == m * q + r
    ensures a % m == r && a / m == q
  {
    var d := q - a / m;
    assert m * d == a % m - r;
    assert d == 0;
  }

  // ---------- Packing ----------

  /** The value that nextId returns, with the offset of the timestamp from the epoch. */
  function Pack(offset: int, datacenter: int, worker: int, sequence: int): int {
    Or(Or(Or(Shl(offset, TIMESTAMP_LEFT_SHIFT), Shl(datacenter, DATACENTER_ID_SHIFT)),
          Shl(worker, WORKER_ID_SHIFT)), sequence)
  }

  predicate FieldsOk(offset: int, datacenter: int, worker: int, sequence: int) {
    && 0 <= offset < 0x200_0000_0000 // 2^41
    && 0 <= datacenter <= MAX_DATACENTER_ID && 0 <= worker <= MAX_WORKER_ID && 0 <= sequence <= SEQUENCE_MASK
  }

  lemma Powers()
    ensures Pow2(12) == 4096 && Pow2(17) == 131072 && Pow2(22) == 4194304
  {
    assert Pow2(6) == 64;
    assert Pow2(11) == 2048;
    assert Pow2(16) == 65536;
    assert Pow2(21) == 2097152;
  }

  lemma OrIsSum(x: nat, a: nat, b: nat, k: nat)
    requires x == a * Pow2(k) && b < Pow2(k) && x + b < TWO_63
    ensures Or(x, b) == x + b
  {
    assert BitOr(x, b) == x + b by { OrDisjoint(a, b, k); }
    SmallIsSame(x);
    SmallIsSame(b);
    SmallIsSame(x + b);
  }

  lemma SmallIsSame(x: nat)
    requires x < TWO_63
    ensures Unsigned(x) == x && Signed(x) == x
  {
  }

  lemma ShlIsProduct(a: nat, k: nat, p: nat)
    requires p == Pow2(k) && a * p < TWO_63
    ensures Shl(a, k) == a * p
  {
  }

  /** Within range no field runs into another: the packed id is the plain sum of the shifted fields. */
  lemma PackIsSum(offset: nat, datacenter: nat, worker: nat, sequence: nat)
    requires FieldsOk(offset, datacenter, worker, sequence)
    ensures Pack(offset, datacenter, worker, sequence) ==
              offset * 4194304 + datacenter * 131072 + worker * 4096 + sequence
  {
    var t := offset * 4194304;
    var a := t + datacenter * 131072;
    var b := a + worker * 4096;
    assert Shl(offset, 22) == t by { Powers(); ShlIsProduct(offset, 22, 4194304); }
    assert Shl(datacenter, 17) == datacenter * 131072 by { Powers(); ShlIsProduct(datacenter, 17, 131072); }
    assert Shl(worker, 12) == worker * 4096 by { Powers(); ShlIsProduct(worker, 12, 4096); }
    assert Or(t, datacenter * 131072) == a by { Powers(); OrIsSum(t, offset, datacenter * 131072, 22); }
    assert Or(a, worker * 4096) == b by { Powers(); OrIsSum(a, offset * 32 + datacenter, worker * 4096, 17); }
    assert Or(b, sequence) == b + sequence by {
      Powers();
      OrIsSum(b, (offset * 32 + datacenter) * 32 + worker, sequence, 12);
    }
  }

  /** Each field can be read back from the id. */
  lemma PackDecodes(offset: nat, datacenter: nat, worker: nat, sequence: nat)
    requires FieldsOk(offset, datacenter, worker, sequence)
    ensures var id := Pack(offset, datacenter, worker, sequence);
            && id / 4194304 == offset && id / 131072 % 32 == datacenter
            && id / 4096 % 32 == worker && id % 4096 == sequence
  {
    var id := Pack(offset, datacenter, worker, sequence);
    assert id == offset * 4194304 + datacenter * 131072 + worker * 4096 + sequence by {
      PackIsSum(offset, datacenter, worker, sequence);
    }
    SumDecodes(id, offset, datacenter, worker, sequence);
  }

  lemma SumDecodes(id: nat, offset: nat, datacenter: nat, worker: nat, sequence: nat)
    requires datacenter < 32 && worker < 32 && sequence < 4096
    requires id == offset * 4194304 + datacenter * 131072 + worker * 4096 + sequence
    ensures id / 4194304 == offset && id / 131072 % 32 == datacenter
    ensures id / 4096 % 32 == worker && id % 4096 == sequence
  {
    ModUnique(id, 4096, offset * 1024 + datacenter * 32 + worker, sequence);
    ModUnique(id, 131072, offset * 32 + datacenter, worker * 4096 + sequence);
    ModUnique(id, 4194304, offset, datacenter * 131072 + worker * 4096 + sequence);
    ModUnique(offset * 1024 + datacenter * 32 + worker, 32, offset * 32 + datacenter, worker);
    ModUnique(offset * 32 + datacenter, 32, offset, datacenter);
  }

  // ---------- The generator ----------

  datatype Generator = Generator(worker: int, datacenter: int, epoch: int, sequence: int, last: int)

  /** Waiting: the spin loop has used up the clock readings of this run. */
  datatype Outcome = Issued(id: int) | Rejected | Waiting

  /** The constructor's bounds; None stands for IllegalArgumentException. The sequence starts at the character '0'. */
  function Make(worker: int, datacenter: int, epoch: int): Option<Generator> {
    if worker > MAX_WORKER_ID || worker < 0 then None
    else if datacenter > MAX_DATACENTER_ID || datacenter < 0 then None
    else Some(Generator(worker, datacenter, epoch, '0' as int, -1))
  }

  /** How many readings tilNextMillis consumes: up to the first one after `last`, all of them if there is none. */
  function Spin(last: int, readings: seq<int>): (n: nat)
    ensures n <= |readings|
    ensures forall i :: 0 <= i < n ==> readings[i] <= last
    ensures n < |readings| ==> readings[n] > last
  {
    if readings == [] || readings[0] > last then 0 else 1 + Spin(last, readings[1..])
  }

  /** What a call makes of the clock before it packs: the timestamp and sequence to issue, or why not. */
  datatype Draw = Draws(timestamp: int, sequence: int, used: nat) | Refuses | Starves(sequence: int)

  /** The branches of nextId; `next` is the sequence after the current one. */
  function DrawFrom(last: int, sequence: int, next: int, readings: seq<int>): Draw {
    if readings == [] then Starves(sequence)
    else if readings[0] < last then Refuses
    else if readings[0] > last then Draws(readings[0], 0, 1)
    else if next != 0 then Draws(readings[0], next, 1)
    else
      var n := Spin(last, readings[1..]);
      if 1 + n == |readings| then Starves(0) else Draws(readings[1 + n], 0, 2 + n)
  }

  function DrawNext(g: Generator, readings: seq<int>): Draw {
    DrawFrom(g.last, g.sequence, And(g.sequence + 1, SEQUENCE_MASK), readings)
  }

  /** One call of nextId on the clock readings still to come: the new state, the outcome, how many were used. */
  function NextId(g: Generator, readings: seq<int>): (Generator, Outcome, nat) {
    Conclude(g, DrawNext(g, readings), |readings|)
  }

  function Conclude(g: Generator, d: Draw, available: nat): (Generator, Outcome, nat) {
    match d
    case Refuses => (g, Rejected, 1)
    case Starves(s) => (g.(sequence := s), Waiting, available)
    case Draws(t, s, used) =>
      (g.(sequence := s, last := t), Issued(Pack(t - g.epoch, g.datacenter, g.worker, s)), used)
  }

  /** The ids that successive calls issue over a whole run of clock readings. */
  function Ids(g: Generator, readings: seq<int>): seq<int>
    decreases |readings|
  {
    var (g', o, n) := NextId(g, readings);
    if o.Waiting? || !(0 < n <= |readings|) then []
    else (if o.Issued? then [o.id] else []) + Ids(g', readings[n..])
  }

  ghost predicate GeneratorOk(g: Generator) {
    0 <= g.worker <= MAX_WORKER_ID && 0 <= g.datacenter <= MAX_DATACENTER_ID && 0 <= g.sequence <= SEQUENCE_MASK
  }

  /** The epoch offset fits 41 bits at every reading. */
  ghost predicate ReadingsOk(g: Generator, readings: seq<int>) {
    forall i :: 0 <= i < |readings| ==> 0 <= readings[i] - g.epoch < 0x200_0000_0000
  }

  lemma NextSequence(s: int)
    requires 0 <= s <= SEQUENCE_MASK
    ensures And(s + 1, SEQUENCE_MASK) == (s + 1) % 4096
  {
    assert BitAnd(s + 1, 4095) == (s + 1) % 4096 by {
      Powers();
      AndMask(s + 1, 12);
    }
    SmallIsSame(s + 1);
    SmallIsSame(4095);
    SmallIsSame((s + 1) % 4096);
  }

  /** The id of the state: what the last issued id was, and a lower bound of the next. */
  function Rank(g: Generator): int {
    (g.last - g.epoch) * 4194304 + g.datacenter * 131072 + g.worker * 4096 + g.sequence
  }

  /** What a draw promises: it refuses exactly on a backward clock and otherwise moves forward. */
  ghost predicate DrawOk(d: Draw, last: int, sequence: int, readings: seq<int>) {
    && (d.Refuses? <==> readings != [] && readings[0] < last)
    && (d.Draws? ==> && 0 < d.used <= |readings| && d.timestamp == readings[d.used - 1]
                     && 0 <= d.sequence <= SEQUENCE_MASK
                     && (d.timestamp > last || (d.timestamp == last && d.sequence > sequence)))
  }

  lemma DrawFacts(last: int, sequence: int, next: int, readings: seq<int>)
    requires 0 <= sequence <= SEQUENCE_MASK && next == (sequence + 1) % 4096
    ensures DrawOk(DrawFrom(last, sequence, next, readings), last, sequence, readings)
  {
    if readings != [] {
      var n := Spin(last, readings[1..]);
      if 1 + n < |readings| {
        assert readings[1..][n] == readings[1 + n];
      }
    }
  }

  lemma DrawNextFacts(g: Generator, readings: seq<int>)
    requires GeneratorOk(g)
    ensures DrawOk(DrawNext(g, readings), g.last, g.sequence, readings)
  {
    var next := And(g.sequence + 1, SEQUENCE_MASK);
    assert next == (g.sequence + 1) % 4096 by { NextSequence(g.sequence); }
    assert DrawNext(g, readings) == DrawFrom(g.last, g.sequence, next, readings);
    DrawFacts(g.last, g.sequence, next, readings);
  }

  lemma RankGrows(g: Generator, t: int, s: int)
    requires GeneratorOk(g) && 0 <= s <= SEQUENCE_MASK
    requires t > g.last || (t == g.last && s > g.sequence)
    ensures Rank(g.(sequence := s, last := t)) > Rank(g)
  {
    if t > g.last {
      assert (t - g.epoch) * 4194304 >= (g.last - g.epoch) * 4194304 + 4194304;
    }
  }

  /** A backward clock rejects the call and changes nothing; an issued id is the rank of the new state, above the old. */
  ghost predicate StepOk(g: Generator, r: (Generator, Outcome, nat), readings: seq<int>) {
    var (g', o, n) := r;
    && (o.Rejected? <==> readings != [] && readings[0] < g.last)
    && (o.Rejected? ==> g' == g && n == 1)
    && (o.Issued? ==> GeneratorOk(g') && o.id == Rank(g') && Rank(g') > Rank(g) && g'.last >= g.epoch)
    && (!o.Waiting? ==> 0 < n <= |readings|)
    && g'.worker == g.worker && g'.datacenter == g.datacenter && g'.epoch == g.epoch
  }

  lemma ConcludeFacts(g: Generator, d: Draw, readings: seq<int>)
    requires GeneratorOk(g) && ReadingsOk(g, readings) && DrawOk(d, g.last, g.sequence, readings)
    ensures StepOk(g, Conclude(g, d, |readings|), readings)
  {
    if d.Draws? {
      RankGrows(g, d.timestamp, d.sequence);
      assert Pack(d.timestamp - g.epoch, g.datacenter, g.worker, d.sequence) ==
               Rank(g.(sequence := d.sequence, last := d.timestamp)) by {
        PackIsSum(d.timestamp - g.epoch, g.datacenter, g.worker, d.sequence);
      }
    }
  }

  lemma NextIdFacts(g: Generator, readings: seq<int>)
    requires GeneratorOk(g) && ReadingsOk(g, readings)
    ensures StepOk(g, NextId(g, readings), readings)
  {
    DrawNextFacts(g, readings);
    ConcludeFacts(g, DrawNext(g, readings), readings);
  }

  // ---------- Which ids are issued ----------

  /** Reading n is the first after the one at hand that is later than `last`. */
  ghost predicate FirstLater(readings: seq<int>, last: int, n: int) {
    1 <= n < |readings| && readings[n] > last && forall i :: 1 <= i < n ==> readings[i] <= last
  }

  ghost predicate NoneLater(readings: seq<int>, last: int) {
    forall i :: 1 <= i < |readings| ==> readings[i] <= last
  }

  lemma SpinIs(readings: seq<int>, last: int)
    requires readings != []
    ensures forall n :: FirstLater(readings, last, n) ==> 1 + Spin(last, readings[1..]) == n
    ensures NoneLater(readings, last) <==> 1 + Spin(last, readings[1..]) == |readings|
  {
    var n := Spin(last, readings[1..]);
    assert forall i :: 1 <= i < |readings| ==> readings[i] == readings[1..][i - 1];
    if 1 + n < |readings| {
      assert readings[1 + n] > last;
    }
  }

  /** The timestamp and sequence of a call, in every case of the clock. */
  ghost predicate DrawIs(d: Draw, last: int, sequence: int, readings: seq<int>)
    requires readings != []
  {
    var now := readings[0];
    && (now < last ==> d == Refuses)
    && (now > last ==> d == Draws(now, 0, 1))
    && (now == last && sequence < SEQUENCE_MASK ==> d == Draws(now, sequence + 1, 1))
    && (now == last && sequence == SEQUENCE_MASK ==>
          && (forall n :: FirstLater(readings, last, n) ==> d == Draws(readings[n], 0, n + 1))
          && (NoneLater(readings, last) ==> d.Starves?))
  }

  lemma DrawFromIs(last: int, sequence: int, next: int, readings: seq<int>)
    requires readings != [] && 0 <= sequence <= SEQUENCE_MASK && next == (sequence + 1) % 4096
    ensures DrawIs(DrawFrom(last, sequence, next, readings), last, sequence, readings)
  {
    SpinIs(readings, last);
  }

  /**
   A later millisecond starts at sequence 0, the same one counts up, and after 4095 the call takes
   the first later millisecond; so a clock that moves on always yields an id.
   */
  lemma DrawExact(g: Generator, readings: seq<int>)
    requires GeneratorOk(g) && readings != []
    ensures DrawIs(DrawNext(g, readings), g.last, g.sequence, readings)
  {
    var next := And(g.sequence + 1, SEQUENCE_MASK);
    assert next == (g.sequence + 1) % 4096 by { NextSequence(g.sequence); }
    assert DrawNext(g, readings) == DrawFrom(g.last, g.sequence, next, readings);
    DrawFromIs(g.last, g.sequence, next, readings);
  }

  ghost predicate Forward(last: int, readings: seq<int>) {
    && (forall i :: 0 <= i < |readings| ==> readings[i] > last)
    && (forall i, j :: 0 <= i < j < |readings| ==> readings[i] < readings[j])
  }

  lemma Concludes(g: Generator, d: Draw, available: nat)
    requires d.Draws?
    ensures var (g', o, n) := Conclude(g, d, available);
            g' == g.(sequence := d.sequence, last := d.timestamp) && o.Issued? && n == d.used
  {
  }

  /** A call that draws d issues the rank of the state it leaves. */
  lemma DrawsIssue(g: Generator, readings: seq<int>, d: Draw, g': Generator)
    requires GeneratorOk(g) && ReadingsOk(g, readings) && d.Draws? && DrawNext(g, readings) == d
    requires g' == g.(sequence := d.sequence, last := d.timestamp)
    ensures NextId(g, readings) == (g', Issued(Rank(g')), d.used)
  {
    NextIdFacts(g, readings);
    Concludes(g, d, |readings|);
  }

  /** One call, on a reading later than the last. */
  lemma ForwardStep(g: Generator, g': Generator, readings: seq<int>)
    requires GeneratorOk(g) && ReadingsOk(g, readings) && readings != [] && readings[0] > g.last
    requires g' == g.(sequence := 0, last := readings[0])
    ensures NextId(g, readings) == (g', Issued(Rank(g')), 1)
  {
    var d := Draws(readings[0], 0, 1);
    assert DrawNext(g, readings) == d by { DrawExact(g, readings); }
    DrawsIssue(g, readings, d, g');
  }

  lemma IdsNext(g: Generator, g': Generator, id: int, readings: seq<int>)
    requires readings != [] && NextId(g, readings) == (g', Issued(id), 1)
    ensures Ids(g, readings) == [id] + Ids(g', readings[1..])
  {
  }

  /** A clock that advances between calls yields one id per call, each with its reading and sequence 0. */
  lemma {:induction false} ForwardClock(g: Generator, readings: seq<int>)
    requires GeneratorOk(g) && ReadingsOk(g, readings) && Forward(g.last, readings)
    ensures |Ids(g, readings)| == |readings|
    ensures forall i :: 0 <= i < |readings| ==> Ids(g, readings)[i] == Rank(g.(sequence := 0, last := readings[i]))
    decreases |readings|
  {
    if readings != [] {
      var g' := g.(sequence := 0, last := readings[0]);
      ForwardStep(g, g', readings);
      IdsNext(g, g', Rank(g'), readings);
      ForwardClock(g', readings[1..]);
    }
  }

  lemma SameStep(g: Generator, g': Generator, readings: seq<int>)
    requires GeneratorOk(g) && ReadingsOk(g, readings) && readings != [] && readings[0] == g.last && g.sequence < SEQUENCE_MASK
    requires g' == g.(sequence := g.sequence + 1)
    ensures NextId(g, readings) == (g', Issued(Rank(g')), 1)
  {
    var d := Draws(g.last, g.sequence + 1, 1);
    assert DrawNext(g, readings) == d by { DrawExact(g, readings); }
    DrawsIssue(g, readings, d, g');
  }

  /** Calls within one millisecond yield consecutive ids, up to sequence 4095. */
  lemma {:induction false} SameMillisecond(g: Generator, readings: seq<int>)
    requires GeneratorOk(g) && ReadingsOk(g, readings) && |readings| <= SEQUENCE_MASK - g.sequence
    requires forall i :: 0 <= i < |readings| ==> readings[i] == g.last
    ensures |Ids(g, readings)| == |readings|
    ensures forall i :: 0 <= i < |readings| ==> Ids(g, readings)[i] == Rank(g) + 1 + i
    decreases |readings|
  {
    if readings != [] {
      var g' := g.(sequence := g.sequence + 1);
      SameStep(g, g', readings);
      IdsNext(g, g', Rank(g'), readings);
      SameMillisecond(g', readings[1..]);
    }
  }

  // ---------- Whole runs ----------

  /** Ids strictly increase over any clock, forwards or backwards, and carry their generator's fields. */
  lemma {:induction false} IdsIncrease(g: Generator, readings: seq<int>)
    requires GeneratorOk(g) && ReadingsOk(g, readings)
    ensures Increasing(Ids(g, readings))
    ensures forall id :: id in Ids(g, readings) ==> id > Rank(g) && Carries(id, g.datacenter, g.worker)
    decreases |readings|
  {
    NextIdFacts(g, readings);
    var (g', o, n) := NextId(g, readings);
    if !o.Waiting? {
      assert ReadingsOk(g', readings[n..]);
      IdsIncrease(g', readings[n..]);
      var rest := Ids(g', readings[n..]);
      if o.Issued? {
        RankCarries(g');
        assert Ids(g, readings) == [o.id] + rest;
        assert forall i :: 0 <= i < |rest| ==> rest[i] in rest;
      } else {
        assert Ids(g, readings) == [] + rest == rest;
      }
    }
  }

  ghost predicate Increasing(ids: seq<int>) {
    forall i, j :: 0 <= i < j < |ids| ==> ids[i] < ids[j]
  }

  ghost predicate Carries(id: int, datacenter: int, worker: int) {
    id / 131072 % 32 == datacenter && id / 4096 % 32 == worker
  }

  lemma RankCarries(g: Generator)
    requires GeneratorOk(g) && g.last >= g.epoch
    ensures Carries(Rank(g), g.datacenter, g.worker)
  {
    SumDecodes(Rank(g), g.last - g.epoch, g.datacenter, g.worker, g.sequence);
  }

  lemma IdCarries(g: Generator, readings: seq<int>, id: int)
    requires GeneratorOk(g) && ReadingsOk(g, readings) && id in Ids(g, readings)
    ensures Carries(id, g.datacenter, g.worker)
  {
    IdsIncrease(g, readings);
  }

  /** Generators that differ in datacenter or worker never issue the same id. */
  lemma GeneratorsDisjoint(g: Generator, h: Generator, rs: seq<int>, qs: seq<int>, id: int)
    requires GeneratorOk(g) && GeneratorOk(h) && ReadingsOk(g, rs) && ReadingsOk(h, qs)
    requires (g.datacenter, g.worker) != (h.datacenter, h.worker)
    ensures !(id in Ids(g, rs) && id in Ids(h, qs))
  {
    if id in Ids(g, rs) && id in Ids(h, qs) {
      IdCarries(g, rs, id);
      IdCarries(h, qs, id);
    }
  }

  lemma MadeGeneratorsOk(worker: int, datacenter: int, epoch: int)
    ensures Make(worker, datacenter, epoch).Some? <==> 0 <= worker < 32 && 0 <= datacenter < 32
    ensures Make(worker, datacenter, epoch).Some? ==> GeneratorOk(Make(worker, datacenter, epoch).value)
  {
  }

  /** The first id of a new generator, from any clock at or after 1970: its reading, its own fields and sequence 0. */
  lemma FirstId(worker: nat, datacenter: nat, epoch: int, readings: seq<int>)
    requires worker < 32 && datacenter < 32 && readings != [] && readings[0] >= 0
    requires forall i :: 0 <= i < |readings| ==> 0 <= readings[i] - epoch < 0x200_0000_0000
    ensures var g := Make(worker, datacenter, epoch);
            && g.Some?
            && NextId(g.value, readings).1 ==
                 Issued((readings[0] - epoch) * 4194304 + datacenter * 131072 + worker * 4096)
  {
    var g := Make(worker, datacenter, epoch).value;
    assert GeneratorOk(g) && ReadingsOk(g, readings);
    ForwardStep(g, g.(sequence := 0, last := readings[0]), readings);
  }

  class IdWorker {
    const workerId: int
    const datacenterId: int
    const idepoch: int
    var sequence: int
    var lastTimestamp: int

    ghost function View(): Generator
      reads this
    {
      Generator(workerId, datacenterId, idepoch, sequence, lastTimestamp)
    }

    constructor (worker: int, datacenter: int, epoch: int)
      requires Make(worker, datacenter, epoch).Some?
      ensures Make(worker, datacenter, epoch) == Some(View())
    {
      workerId, datacenterId, idepoch := worker, datacenter, epoch;
      sequence, lastTimestamp := '0' as int, -1;
    }

    /** tilNextMillis: reads the clock until it passes `last`. */
    method TilNextMillis(last: int, readings: seq<int>) returns (n: nat)
      ensures n == Spin(last, readings)
    {
      n := 0;
      while n < |readings| && readings[n] <= last
        invariant n <= |readings|
        invariant n + Spin(last, readings[n..]) == Spin(last, readings)
      {
        assert readings[n..][1..] == readings[n + 1..];
        n := n + 1;
      }
    }

    /** The clock and sequence part of nextId; the sequence is advanced even while the clock stands still. */
    method Draw(readings: seq<int>) returns (d: Draw)
      modifies `sequence
      ensures d == DrawNext(old(View()), readings)
      ensures sequence == if d.Refuses? then old(sequence) else d.sequence
    {
      if readings == [] {
        return Starves(sequence);
      }
      var timestamp, used := readings[0], 1;
      if timestamp < lastTimestamp {
        return Refuses;
      }
      if lastTimestamp == timestamp {
        sequence := And(sequence + 1, SEQUENCE_MASK);
        if sequence == 0 {
          var n := TilNextMillis(lastTimestamp, readings[1..]);
          if 1 + n == |readings| {
            return Starves(0);
          }
          timestamp, used := readings[1 + n], 2 + n;
        }
      } else {
        sequence := 0;
      }
      d := Draws(timestamp, sequence, used);
    }

    method Next(readings: seq<int>) returns (o: Outcome, used: nat)
      modifies this
      ensures (View(), o, used) == NextId(old(View()), readings)
    {
      var d := Draw(readings);
      match d {
        case Refuses =>
          o, used := Rejected, 1;
        case Starves(_) =>
          o, used := Waiting, |readings|;
        case Draws(timestamp, s, n) =>
          lastTimestamp := timestamp;
          o, used := Issued(Pack(timestamp - idepoch, datacenterId, workerId, s)), n;
      }
    }
  }

  /** The constructor with its bounds: None stands for IllegalArgumentException. */
  method NewWorker(worker: int, datacenter: int, epoch: int) returns (r: Option<IdWorker>)
    ensures r.Some? <==> 0 <= worker < 32 && 0 <= datacenter < 32
    ensures r.Some? ==> fresh(r.value) && Make(worker, datacenter, epoch) == Some(r.value.View()) && GeneratorOk(r.value.View())
  {
    if worker > MAX_WORKER_ID || worker < 0 {
      return None;
    }
    if datacenter > MAX_DATACENTER_ID || datacenter < 0 {
      return None;
    }
    var w := new IdWorker(worker, datacenter, epoch);
    r := Some(w);
  }
}
