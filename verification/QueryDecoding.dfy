/**
 What the scanner and the printer do with URL decoding: on every text, and for every encoding that
 decoding undoes. Repeated names keep their first place and take their last value.
 */
module QueryDecoding {
  import opened Options
  import opened QueryString

  // ---------- One parameter ----------

  /** The value that a text between '=' and '&' stands for; None when it cannot be decoded. */
  function DecodedValue(v: string, decode: Decoder): Option<string> {
    if v == "" then Some("") else decode(v)
  }

  lemma PairSegment(k: string, v: string, m: Params, decode: Decoder)
    requires GoodName(k)
    ensures ParseSegment(m, k + "=" + v, decode) ==
            if decode(k).None? || DecodedValue(v, decode).None? then None
            else Some(PutParam(m, decode(k).value, DecodedValue(v, decode)))
  {
    var g := k + "=" + v;
    NameIs(k, v);
    assert g[0..] == g && g[..|k|] == k && g[|k| + 1..] == v;
  }

  /** A single pair is scanned to its decoded name and decoded value, and fails if either cannot be decoded. */
  lemma ScanPair(k: string, v: string, decode: Decoder)
    requires GoodName(k) && '&' !in v
    ensures Scan(k + "=" + v, [], decode) ==
            if decode(k).None? || DecodedValue(v, decode).None? then None
            else Some([(decode(k).value, DecodedValue(v, decode))])
  {
    var g := k + "=" + v;
    PairSegment(k, v, [], decode);
    ScanSegment(g, "", [], decode);
    assert g + "" == g;
  }

  lemma {:induction false} NoSeparators(k: string)
    requires '&' !in k && '=' !in k
    ensures NameLength(k) == |k|
  {
    if k != "" {
      assert k[0] in k;
      NoSeparators(k[1..]);
    }
  }

  /** A name without '=' is scanned to its decoded name and no value. */
  lemma ScanBare(k: string, decode: Decoder)
    requires GoodName(k)
    ensures Scan(k, [], decode) == if decode(k).None? then None else Some([(decode(k).value, None)])
  {
    NoSeparators(k);
    assert k[0] in k && k[0..] == k;
    ScanSegment(k, "", [], decode);
    assert k + "" == k;
  }

  // ---------- Any text ----------

  /** What one segment contributes. */
  datatype Segment = Nothing | Undecodable | Param(name: string, value: Option<string>)

  function ReadSegment(g: string, decode: Decoder): Segment {
    var t := g[Gap(g)..];
    var n := NameLength(t);
    if t == "" then Nothing
    else if decode(t[..n]).None? || (n < |t| && DecodedValue(t[n + 1..], decode).None?) then Undecodable
    else Param(decode(t[..n]).value, if n < |t| then DecodedValue(t[n + 1..], decode) else None)
  }

  function Contributions(gs: seq<string>, decode: Decoder): Params {
    if gs == [] then []
    else
      var c := ReadSegment(gs[0], decode);
      (if c.Param? then [(c.name, c.value)] else []) + Contributions(gs[1..], decode)
  }

  function PutParams(m: Params, ps: Params): Params
    decreases |ps|
  {
    if ps == [] then m else PutParams(PutParam(m, ps[0].0, ps[0].1), ps[1..])
  }

  lemma SegmentRead(m: Params, g: string, decode: Decoder)
    ensures var c := ReadSegment(g, decode);
            ParseSegment(m, g, decode) ==
            match c
            case Nothing => Some(m)
            case Undecodable => None
            case Param(n, v) => Some(PutParam(m, n, v))
  {
    var t := g[Gap(g)..];
    var n := NameLength(t);
    if t != "" && n == |t| {
      assert t[..n] == t;
    }
  }

  ghost predicate Fails(gs: seq<string>, decode: Decoder) {
    exists i :: 0 <= i < |gs| && ReadSegment(gs[i], decode).Undecodable?
  }

  lemma FailsTail(gs: seq<string>, decode: Decoder)
    requires gs != []
    ensures Fails(gs, decode) <==> ReadSegment(gs[0], decode).Undecodable? || Fails(gs[1..], decode)
  {
    if Fails(gs[1..], decode) {
      var i :| 0 <= i < |gs| - 1 && ReadSegment(gs[1..][i], decode).Undecodable?;
      assert ReadSegment(gs[i + 1], decode).Undecodable?;
    }
    if Fails(gs, decode) && !ReadSegment(gs[0], decode).Undecodable? {
      var i :| 0 <= i < |gs| && ReadSegment(gs[i], decode).Undecodable?;
      assert gs[1..][i - 1] == gs[i];
    }
  }

  lemma {:induction false} SegmentsCollect(gs: seq<string>, m: Params, decode: Decoder)
    ensures ParseSegments(gs, m, decode) ==
            if Fails(gs, decode) then None else Some(PutParams(m, Contributions(gs, decode)))
    decreases |gs|
  {
    if gs != [] {
      var c := ReadSegment(gs[0], decode);
      FailsTail(gs, decode);
      SegmentRead(m, gs[0], decode);
      match c {
        case Nothing =>
          SegmentsCollect(gs[1..], m, decode);
          assert [] + Contributions(gs[1..], decode) == Contributions(gs[1..], decode);
        case Undecodable =>
        case Param(n, v) =>
          SegmentsCollect(gs[1..], PutParam(m, n, v), decode);
          assert ([(n, v)] + Contributions(gs[1..], decode))[1..] == Contributions(gs[1..], decode);
      }
    }
  }

  // ---------- Repeated names ----------

  /** The first pair with name n; |ps| if there is none. */
  function FirstIndex(ps: Params, n: string): (f: nat)
    ensures f <= |ps| && (f < |ps| ==> ps[f].0 == n)
    ensures forall i :: 0 <= i < f ==> ps[i].0 != n
  {
    if ps == [] || ps[0].0 == n then 0 else 1 + FirstIndex(ps[1..], n)
  }

  ghost predicate LastPair(ps: Params, i: int, n: string) {
    0 <= i < |ps| && ps[i].0 == n && forall j :: i < j < |ps| ==> ps[j].0 != n
  }

  /** Each name has the value of its last pair. */
  ghost predicate LastValues(ps: Params, r: Params) {
    forall j, i :: 0 <= j < |r| && LastPair(ps, i, r[j].0) ==> r[j].1 == ps[i].1
  }

  ghost predicate FirstPlaces(ps: Params, r: Params) {
    forall a, b :: 0 <= a < b < |r| ==> FirstIndex(ps, r[a].0) < FirstIndex(ps, r[b].0)
  }

  /** r has exactly the names of the pairs, each once, in the order of their first pairs and with the values of their last. */
  ghost predicate Collects(ps: Params, r: Params) {
    && (forall n :: FirstIndex(r, n) < |r| <==> FirstIndex(ps, n) < |ps|)
    && FirstPlaces(ps, r)
    && LastValues(ps, r)
  }

  lemma {:induction false} PutParamIs(m: Params, k: string, v: Option<string>)
    ensures var f := FirstIndex(m, k);
            PutParam(m, k, v) == if f < |m| then m[f := (k, v)] else m + [(k, v)]
  {
    if m == [] || m[0].0 == k {
      assert m != [] ==> [(k, v)] + m[1..] == m[0 := (k, v)];
    } else {
      var t := m[1..];
      var f := FirstIndex(t, k);
      PutParamIs(t, k, v);
      assert m == [m[0]] + t;
      if f < |t| {
        assert [m[0]] + t[f := (k, v)] == m[f + 1 := (k, v)];
      } else {
        assert [m[0]] + (t + [(k, v)]) == m + [(k, v)];
      }
    }
  }

  lemma FirstIndexSnoc(ps: Params, p: (string, Option<string>), n: string)
    ensures FirstIndex(ps + [p], n) ==
            if FirstIndex(ps, n) < |ps| then FirstIndex(ps, n) else if p.0 == n then |ps| else |ps| + 1
  {
    var qs := ps + [p];
    var f, e := FirstIndex(qs, n), FirstIndex(ps, n);
    assert forall i :: 0 <= i < |ps| ==> qs[i] == ps[i];
    assert qs[|ps|] == p;
    if e < |ps| {
      assert qs[e].0 == n;
    }
    if f < |ps| {
      assert ps[f].0 == n;
    }
  }

  lemma FirstIndexPut(m: Params, k: string, v: Option<string>, n: string)
    ensures FirstIndex(PutParam(m, k, v), n) < |PutParam(m, k, v)| <==> FirstIndex(m, n) < |m| || n == k
  {
    var f, r := FirstIndex(m, k), PutParam(m, k, v);
    PutParamIs(m, k, v);
    if n == k {
      assert r[f].0 == k;
    } else {
      var e, g := FirstIndex(m, n), FirstIndex(r, n);
      if e < |m| {
        assert r[e] == m[e];
      }
      if g < |r| {
        assert g < |m| && r[g].0 == n && g != f;
        assert m[g].0 == n;
      }
    }
  }

  lemma Found(r: Params, a: nat)
    requires a < |r|
    ensures FirstIndex(r, r[a].0) <= a
  {
  }

  /** A map that collects pairs has each name in one place. */
  lemma OnlyPlace(ps: Params, r: Params, j: nat)
    requires FirstPlaces(ps, r) && j < |r|
    ensures FirstIndex(r, r[j].0) == j
  {
    Found(r, j);
  }

  lemma SnocNames(ps: Params, r: Params, p: (string, Option<string>), n: string)
    requires Collects(ps, r)
    ensures var r' := PutParam(r, p.0, p.1); FirstIndex(r', n) < |r'| <==> FirstIndex(ps + [p], n) < |ps + [p]|
  {
    FirstIndexPut(r, p.0, p.1, n);
    FirstIndexSnoc(ps, p, n);
  }

  lemma SnocPlaces(ps: Params, r: Params, p: (string, Option<string>))
    requires Collects(ps, r)
    ensures FirstPlaces(ps + [p], PutParam(r, p.0, p.1))
  {
    var r', f := PutParam(r, p.0, p.1), FirstIndex(r, p.0);
    PutParamIs(r, p.0, p.1);
    forall a, b | 0 <= a < b < |r'| ensures FirstIndex(ps + [p], r'[a].0) < FirstIndex(ps + [p], r'[b].0) {
      FirstIndexSnoc(ps, p, r'[a].0);
      FirstIndexSnoc(ps, p, r'[b].0);
      assert r'[a].0 == r[a].0;
      Found(r, a);
      if b < |r| {
        assert r'[b].0 == r[b].0;
        assert FirstIndex(ps, r[a].0) < FirstIndex(ps, r[b].0);
        Found(r, b);
      } else {
        assert r'[b].0 == p.0;
      }
    }
  }

  lemma SnocValues(ps: Params, r: Params, p: (string, Option<string>))
    requires Collects(ps, r)
    ensures LastValues(ps + [p], PutParam(r, p.0, p.1))
  {
    var qs, r', f := ps + [p], PutParam(r, p.0, p.1), FirstIndex(r, p.0);
    PutParamIs(r, p.0, p.1);
    forall j, i | 0 <= j < |r'| && LastPair(qs, i, r'[j].0) ensures r'[j].1 == qs[i].1 {
      if r'[j].0 == p.0 {
        assert qs[|ps|].0 == p.0 && i == |ps|;
        if j < |r| {
          assert r[j].0 == p.0;
          OnlyPlace(ps, r, j);
        }
      } else {
        assert i < |ps| && LastPair(ps, i, r'[j].0) by {
          assert forall l :: 0 <= l < |ps| ==> qs[l] == ps[l];
          assert qs[|ps|] == p;
        }
        assert j < |r| && r'[j] == r[j];
      }
    }
  }

  lemma CollectsSnoc(ps: Params, r: Params, p: (string, Option<string>))
    requires Collects(ps, r)
    ensures Collects(ps + [p], PutParam(r, p.0, p.1))
  {
    forall n ensures var r' := PutParam(r, p.0, p.1); FirstIndex(r', n) < |r'| <==> FirstIndex(ps + [p], n) < |ps + [p]| {
      SnocNames(ps, r, p, n);
    }
    SnocPlaces(ps, r, p);
    SnocValues(ps, r, p);
  }

  lemma {:induction false} PutParamsCollect(done: Params, r: Params, ps: Params)
    requires Collects(done, r)
    ensures Collects(done + ps, PutParams(r, ps))
    decreases |ps|
  {
    if ps == [] {
      assert done + ps == done;
    } else {
      CollectsSnoc(done, r, ps[0]);
      PutParamsCollect(done + [ps[0]], PutParam(r, ps[0].0, ps[0].1), ps[1..]);
      assert done + [ps[0]] + ps[1..] == done + ps;
    }
  }

  /**
   The scan of any text: it fails exactly if some segment has a name or a value that cannot be
   decoded, and otherwise gives each decoded name once, in the order of first occurrence and with
   the decoded value of the last.
   */
  lemma ScanCollects(s: string, decode: Decoder)
    ensures var gs := SplitAmp(s);
            && (Scan(s, [], decode).None? <==> Fails(gs, decode))
            && (Scan(s, [], decode).Some? ==> Collects(Contributions(gs, decode), Scan(s, [], decode).value))
  {
    var gs := SplitAmp(s);
    var none: Params := [];
    ScanIsPerSegment(s, none, decode);
    SegmentsCollect(gs, none, decode);
    assert Collects(none, none);
    PutParamsCollect(none, none, Contributions(gs, decode));
    assert none + Contributions(gs, decode) == Contributions(gs, decode);
  }

  // ---------- Scanning what was encoded ----------

  type Encoder = string -> string

  /** Decoding undoes encoding, and encoded text has no separator. */
  ghost predicate Undoes(decode: Decoder, encode: Encoder) {
    forall s :: decode(encode(s)) == Some(s) && '&' !in encode(s) && '=' !in encode(s)
  }

  function EncodedPair(e: (string, string), encode: Encoder): string {
    encode(e.0) + "=" + encode(e.1)
  }

  /** The encoded pairs of a map, joined by '&'. */
  function EncodedQuery(m: Entries, encode: Encoder): string {
    if m == [] then ""
    else if |m| == 1 then EncodedPair(m[0], encode)
    else EncodedPair(m[0], encode) + "&" + EncodedQuery(m[1..], encode)
  }

  ghost predicate NamesOk(m: Entries) {
    DistinctNames(m) && forall i :: 0 <= i < |m| ==> m[i].0 != ""
  }

  lemma EncodedSegment(e: (string, string), acc: Params, decode: Decoder, encode: Encoder)
    requires DecodesPlain(decode) && Undoes(decode, encode) && e.0 != ""
    requires forall i :: 0 <= i < |acc| ==> acc[i].0 != e.0
    ensures '&' !in EncodedPair(e, encode)
    ensures ParseSegment(acc, EncodedPair(e, encode), decode) == Some(acc + [(e.0, Some(e.1))])
  {
    var k, v := encode(e.0), encode(e.1);
    assert decode(k) == Some(e.0) && decode(v) == Some(e.1);
    assert Plain("") && decode("") == Some("");
    PairSegment(k, v, acc, decode);
    PutNew(acc, e.0, Some(e.1));
  }

  lemma EncodedTail(m: Entries, acc: Params)
    requires m != [] && NamesOk(m) && Fresh(acc, m)
    ensures NamesOk(m[1..]) && Fresh(acc + [(m[0].0, Some(m[0].1))], m[1..])
    ensures acc + [(m[0].0, Some(m[0].1))] + Lift(m[1..]) == acc + Lift(m)
  {
  }

  lemma {:induction false} ScanEncoded(m: Entries, acc: Params, decode: Decoder, encode: Encoder)
    requires DecodesPlain(decode) && Undoes(decode, encode) && m != [] && NamesOk(m) && Fresh(acc, m)
    ensures Scan(EncodedQuery(m, encode), acc, decode) == Some(acc + Lift(m))
    decreases |m|
  {
    var g, acc' := EncodedPair(m[0], encode), acc + [(m[0].0, Some(m[0].1))];
    EncodedSegment(m[0], acc, decode, encode);
    if |m| == 1 {
      assert acc' == acc + Lift(m);
      ScanLast(g, acc, acc', decode);
    } else {
      EncodedTail(m, acc);
      ScanEncoded(m[1..], acc', decode, encode);
      ScanNext(g, EncodedQuery(m[1..], encode), acc, acc', decode);
    }
  }

  /** Scanning the encoded pairs of any map with distinct non-empty names gives that map, in its order. */
  lemma EncodedRoundTrip(m: Entries, decode: Decoder, encode: Encoder)
    requires DecodesPlain(decode) && Undoes(decode, encode) && NamesOk(m)
    ensures Scan(EncodedQuery(m, encode), [], decode) == Some(Lift(m))
  {
    var none: Params := [];
    if m == [] {
      assert Lift(m) == none;
    } else {
      ScanEncoded(m, none, decode, encode);
      assert none + Lift(m) == Lift(m);
    }
  }

  // ---------- What the printer prints ----------

  /** Printing fails exactly on an empty object or a value that cannot be decoded. */
  lemma {:induction false} JoinedFails(m: Entries, decode: Decoder)
    requires m != []
    ensures Joined(m, decode).Some? <==> forall i :: 0 <= i < |m| ==> decode(m[i].1).Some?
  {
    if |m| > 1 {
      JoinedFails(m[1..], decode);
      assert forall i :: 1 <= i < |m| ==> m[i] == m[1..][i - 1];
    }
  }

  /** What is printed for two objects after another is their texts joined by '&'. */
  lemma {:induction false} JoinedConcat(a: Entries, b: Entries, decode: Decoder)
    requires a != [] && b != []
    ensures Joined(a + b, decode) ==
            if Joined(a, decode).None? || Joined(b, decode).None? then None
            else Some(Joined(a, decode).value + "&" + Joined(b, decode).value)
  {
    if |a| == 1 {
      assert (a + b)[1..] == b;
    } else {
      assert (a + b)[1..] == a[1..] + b;
      JoinedConcat(a[1..], b, decode);
      if Joined(a, decode).Some? && Joined(b, decode).Some? {
        var e, t, u := Entry(a[0], decode).value, Joined(a[1..], decode).value, Joined(b, decode).value;
        assert e + "&" + (t + "&" + u) == (e + "&" + t) + "&" + u;
      }
    }
  }

  /** A null field is read as the empty string. */
  function TextOf(v: Option<string>): string { if v.Some? then v.value else "" }

  /** One field prints as its name and its decoded value, null as the empty string; see JoinedConcat for more. */
  lemma PrintOne(k: string, v: Option<string>, decode: Decoder)
    ensures Print(Object([(k, v)]), decode) ==
            if decode(TextOf(v)).None? then None else Some(k + "=" + decode(TextOf(v)).value)
  {
    assert Read([(k, v)]) == [(k, TextOf(v))];
  }

  lemma PrintFailsIff(fields: seq<(string, Option<string>)>, decode: Decoder)
    ensures Print(Object(fields), decode).Some? <==>
            fields != [] && forall i :: 0 <= i < |fields| ==> decode(TextOf(fields[i].1)).Some?
  {
    if fields != [] {
      JoinedFails(Read(fields), decode);
      assert forall i :: 0 <= i < |fields| ==> Read(fields)[i].1 == TextOf(fields[i].1);
    }
  }

  // ---------- Parsing what was printed, on any text ----------

  /** The values are decoded when they are printed, and everything is decoded when it is parsed. */
  ghost predicate Decodable(e: (string, string), decode: Decoder) {
    && GoodName(e.0) && decode(e.0).Some? && decode(e.1).Some?
    && '&' !in decode(e.1).value && DecodedValue(decode(e.1).value, decode).Some?
  }

  ghost predicate AllDecodable(m: Entries, decode: Decoder) {
    forall i :: 0 <= i < |m| ==> Decodable(m[i], decode)
  }

  ghost function Twice(m: Entries, decode: Decoder): Params
    requires AllDecodable(m, decode)
    decreases |m|
  {
    if m == [] then []
    else
      assert Decodable(m[0], decode);
      [(decode(m[0].0).value, DecodedValue(decode(m[0].1).value, decode))] + Twice(m[1..], decode)
  }

  lemma {:induction false} ScanPrinted(m: Entries, acc: Params, decode: Decoder)
    requires m != [] && AllDecodable(m, decode)
    ensures Joined(m, decode).Some?
    ensures Scan(Joined(m, decode).value, acc, decode) == Some(PutParams(acc, Twice(m, decode)))
    decreases |m|
  {
    var e := m[0];
    assert Decodable(e, decode);
    var v := decode(e.1).value;
    var g, p := e.0 + "=" + v, Twice(m, decode)[0];
    var acc' := PutParam(acc, p.0, p.1);
    PairSegment(e.0, v, acc, decode);
    assert Twice(m, decode)[1..] == Twice(m[1..], decode);
    if |m| == 1 {
      ScanLast(g, acc, acc', decode);
    } else {
      ScanPrinted(m[1..], acc', decode);
      ScanNext(g, Joined(m[1..], decode).value, acc, acc', decode);
    }
  }

  /** On any decodable text, parsing what was printed collects the names decoded once and the values decoded twice. */
  lemma PrintThenParse(fields: seq<(string, Option<string>)>, decode: Decoder)
    requires fields != [] && AllDecodable(Read(fields), decode)
    ensures var text := Print(Object(fields), decode);
            && text.Some? && Scan(text.value, [], decode).Some?
            && Collects(Twice(Read(fields), decode), Scan(text.value, [], decode).value)
  {
    var none: Params := [];
    var ps := Twice(Read(fields), decode);
    ScanPrinted(Read(fields), none, decode);
    assert Collects(none, none);
    PutParamsCollect(none, none, ps);
    assert none + ps == ps;
  }
}
