/**
 The query-string scanner and the printer it must undo. `decode` stands for URL decoding, which
 leaves text without '%' and '+' alone; None stands for an exception.
 */
module QueryString {
  import opened Options

  type Decoder = string -> Option<string>

  /** A LinkedHashMap from names to values, in insertion order; a value may be null. */
  type Params = seq<(string, Option<string>)>

  predicate Separator(c: char) { c == '&' || c == '=' }

  predicate Plain(s: string) { '%' !in s && '+' !in s }

  ghost predicate DecodesPlain(decode: Decoder) {
    forall s :: Plain(s) ==> decode(s) == Some(s)
  }

  /** Map.put: an existing name keeps its place. */
  function PutParam(m: Params, k: string, v: Option<string>): Params {
    if m == [] then [(k, v)]
    else if m[0].0 == k then [(k, v)] + m[1..]
    else [m[0]] + PutParam(m[1..], k, v)
  }

  // ---------- The scanner: successive matches of ([^&=]+)(=?)([^&]+)? ----------

  /** The length of the longest prefix without the characters that end a name. */
  function NameLength(s: string): (n: nat)
    ensures n <= |s|
    ensures forall i :: 0 <= i < n ==> !Separator(s[i])
    ensures n < |s| ==> Separator(s[n])
  {
    if s == "" || Separator(s[0]) then 0 else 1 + NameLength(s[1..])
  }

  /** The length of the longest prefix without '&'. */
  function ValueLength(s: string): (n: nat)
    ensures n <= |s|
    ensures forall i :: 0 <= i < n ==> s[i] != '&'
    ensures n < |s| ==> s[n] == '&'
  {
    if s == "" || s[0] == '&' then 0 else 1 + ValueLength(s[1..])
  }

  /** How many separators precede the next match. */
  function Gap(s: string): (n: nat)
    ensures n <= |s|
    ensures forall i :: 0 <= i < n ==> Separator(s[i])
    ensures n < |s| ==> !Separator(s[n])
  {
    if s == "" || !Separator(s[0]) then 0 else 1 + Gap(s[1..])
  }

  /** One match at the start of s: name, value, length. The value is null without '=', empty with a bare '='. */
  function MatchAt(s: string): (r: (string, Option<string>, nat))
    requires s != "" && !Separator(s[0])
    ensures 0 < r.2 <= |s|
  {
    var n := NameLength(s);
    if n < |s| && s[n] == '=' then
      var v := ValueLength(s[n + 1..]);
      (s[..n], Some(s[n + 1..n + 1 + v]), n + 1 + v)
    else (s[..n], None, n)
  }

  /** Decodes a match and files it. */
  function File(m: Params, name: string, value: Option<string>, decode: Decoder): Option<Params> {
    var k := decode(name);
    if k.None? then None
    else if value.None? || value.value == "" then Some(PutParam(m, k.value, value))
    else
      var v := decode(value.value);
      if v.None? then None else Some(PutParam(m, k.value, v))
  }

  function Scan(s: string, m: Params, decode: Decoder): Option<Params>
    decreases |s|
  {
    if Gap(s) == |s| then Some(m)
    else
      var t := s[Gap(s)..];
      var (name, value, n) := MatchAt(t);
      var m' := File(m, name, value, decode);
      if m'.None? then None else Scan(t[n..], m'.value, decode)
  }

  /** initQueryParams: the loop over matcher.find(). It ends on every input. */
  method InitQueryParams(query: string, decode: Decoder) returns (r: Option<Params>)
    ensures r == Scan(query, [], decode)
  {
    r := Some([]);
    var s := query;
    while r.Some? && Gap(s) < |s|
      invariant r.Some? ==> Scan(s, r.value, decode) == Scan(query, [], decode)
      invariant r.None? ==> Scan(query, [], decode) == None
      decreases |s|, r.Some?
    {
      var t := s[Gap(s)..];
      var (name, value, n) := MatchAt(t);
      r := File(r.value, name, value, decode);
      s := t[n..];
    }
  }

  // ---------- Reference: one parameter per '&'-separated segment ----------

  function SplitAmp(s: string): seq<string> {
    var n := ValueLength(s);
    if n == |s| then [s] else [s[..n]] + SplitAmp(s[n + 1..])
  }

  /** A segment is a name with an optional value, after any stray '='; a segment of '=' alone is nothing. */
  function ParseSegment(m: Params, g: string, decode: Decoder): Option<Params> {
    if Gap(g) == |g| then Some(m)
    else
      var t := g[Gap(g)..];
      var n := NameLength(t);
      if n == |t| then File(m, t, None, decode)
      else File(m, t[..n], Some(t[n + 1..]), decode)
  }

  function ParseSegments(gs: seq<string>, m: Params, decode: Decoder): Option<Params> {
    if gs == [] then Some(m)
    else
      var m' := ParseSegment(m, gs[0], decode);
      if m'.None? then None else ParseSegments(gs[1..], m'.value, decode)
  }

  lemma {:induction false} GapConcat(g: string, rest: string)
    requires Gap(g) < |g|
    ensures Gap(g + rest) == Gap(g)
  {
    if Separator(g[0]) {
      assert (g + rest)[1..] == g[1..] + rest;
      GapConcat(g[1..], rest);
    }
  }

  lemma {:induction false} GapSkips(g: string, rest: string)
    requires Gap(g) == |g|
    ensures Gap(g + rest) == |g| + Gap(rest)
  {
    if g == "" {
      assert g + rest == rest;
    } else {
      assert (g + rest)[1..] == g[1..] + rest;
      GapSkips(g[1..], rest);
    }
  }

  /** The name of a string that continues with '&', or not at all, is the name of its first part. */
  lemma {:induction false} NameConcat(t: string, rest: string)
    requires rest == "" || rest[0] == '&'
    ensures NameLength(t + rest) == NameLength(t)
  {
    if t == "" {
      assert t + rest == rest;
    } else if !Separator(t[0]) {
      assert (t + rest)[1..] == t[1..] + rest;
      NameConcat(t[1..], rest);
    }
  }

  lemma {:induction false} ValueConcat(t: string, rest: string)
    requires '&' !in t && (rest == "" || rest[0] == '&')
    ensures ValueLength(t + rest) == |t|
  {
    if t == "" {
      assert t + rest == rest;
    } else {
      assert t[0] in t;
      assert (t + rest)[1..] == t[1..] + rest;
      ValueConcat(t[1..], rest);
    }
  }

  lemma MatchBare(t: string, rest: string)
    requires t != "" && !Separator(t[0]) && NameLength(t) == |t| && (rest == "" || rest[0] == '&')
    ensures MatchAt(t + rest) == (t, None, |t|)
  {
    NameConcat(t, rest);
    assert (t + rest)[..|t|] == t;
  }

  lemma PairSlices(k: string, v: string, rest: string)
    ensures var s := k + "=" + v + rest;
            s[..|k|] == k && s[|k|] == '=' && s[|k| + 1..] == v + rest &&
            s[|k| + 1..|k| + 1 + |v|] == v
  {
  }

  lemma MatchPair(s: string, k: string, v: string, rest: string)
    requires k != "" && s == k + "=" + v + rest && !Separator(s[0]) && NameLength(s) == |k|
    requires ValueLength(v + rest) == |v|
    ensures MatchAt(s) == (k, Some(v), |k| + 1 + |v|)
  {
    PairSlices(k, v, rest);
  }

  lemma CutAt(t: string, n: nat)
    requires n < |t| && t[n] == '='
    ensures t == t[..n] + "=" + t[n + 1..]
    ensures '&' !in t ==> '&' !in t[n + 1..]
  {
  }

  lemma NameEnds(t: string)
    requires '&' !in t && NameLength(t) < |t|
    ensures t[NameLength(t)] == '='
  {
    assert t[NameLength(t)] in t;
  }

  lemma MatchCut(t: string, k: string, v: string, rest: string)
    requires t == k + "=" + v && k != "" && !Separator(t[0]) && NameLength(t) == |k| && '&' !in v
    requires rest == "" || rest[0] == '&'
    ensures MatchAt(t + rest) == (k, Some(v), |t|)
  {
    assert NameLength(t + rest) == |k| by { NameConcat(t, rest); }
    assert ValueLength(v + rest) == |v| by { ValueConcat(v, rest); }
    MatchPair(t + rest, k, v, rest);
  }

  /** A match at t takes all of t and nothing of what follows. */
  lemma MatchSegment(t: string, rest: string)
    requires t != "" && !Separator(t[0]) && '&' !in t && (rest == "" || rest[0] == '&')
    ensures MatchAt(t + rest) ==
            (var n := NameLength(t);
             if n == |t| then (t, None, |t|) else (t[..n], Some(t[n + 1..]), |t|))
  {
    var n := NameLength(t);
    if n == |t| {
      MatchBare(t, rest);
    } else {
      assert t == t[..n] + "=" + t[n + 1..] && '&' !in t[n + 1..] by {
        NameEnds(t);
        CutAt(t, n);
      }
      MatchCut(t, t[..n], t[n + 1..], rest);
    }
  }

  /** Scan, when the next match starts after `skip` separators. */
  lemma ScanFrom(s: string, skip: nat, t: string, m: Params, decode: Decoder)
    requires Gap(s) == skip < |s| && t == s[skip..]
    ensures Scan(s, m, decode) ==
            (var (name, value, n) := MatchAt(t);
             var m' := File(m, name, value, decode);
             if m'.None? then None else Scan(t[n..], m'.value, decode))
  {
  }

  /** Scanning a segment that has a name, after the separators before it. */
  lemma ScanNamed(g: string, t: string, rest: string, m: Params, decode: Decoder)
    requires Gap(g) < |g| && t == g[Gap(g)..] && '&' !in t && (rest == "" || rest[0] == '&')
    ensures Scan(g + rest, m, decode) ==
            (var m' := ParseSegment(m, g, decode); if m'.None? then None else Scan(rest, m'.value, decode))
  {
    var n := NameLength(t);
    var value := if n == |t| then None else Some(t[n + 1..]);
    assert Gap(g + rest) == Gap(g) by { GapConcat(g, rest); }
    ConcatSlices(g, Gap(g), rest);
    assert MatchAt(t + rest) == (t[..n], value, |t|) by { MatchSegment(t, rest); assert t[..|t|] == t; }
    ConcatSlices(t, |t|, rest);
    ScanFrom(g + rest, Gap(g), t + rest, m, decode);
    assert ParseSegment(m, g, decode) == File(m, t[..n], value, decode) by { assert t[..|t|] == t; }
  }

  lemma ConcatSlices(a: string, k: nat, b: string)
    requires k <= |a|
    ensures (a + b)[k..] == a[k..] + b && (k == |a| ==> (a + b)[k..] == b)
  {
  }

  /** Scanning a segment that is followed by '&' or by the end handles exactly that segment. */
  lemma ScanSegment(g: string, rest: string, m: Params, decode: Decoder)
    requires '&' !in g && (rest == "" || rest[0] == '&')
    ensures Scan(g + rest, m, decode) ==
            (var m' := ParseSegment(m, g, decode); if m'.None? then None else Scan(rest, m'.value, decode))
  {
    if Gap(g) == |g| {
      SkipGap(g, rest, m, decode);
    } else {
      ScanNamed(g, g[Gap(g)..], rest, m, decode);
    }
  }

  lemma SkipGap(g: string, rest: string, m: Params, decode: Decoder)
    requires Gap(g) == |g|
    ensures Scan(g + rest, m, decode) == Scan(rest, m, decode)
  {
    GapSkips(g, rest);
    if Gap(rest) < |rest| {
      var t := rest[Gap(rest)..];
      assert (g + rest)[|g| + Gap(rest)..] == t;
      ScanFrom(g + rest, |g| + Gap(rest), t, m, decode);
      ScanFrom(rest, Gap(rest), t, m, decode);
    }
  }

  lemma SkipAmp(s: string, m: Params, decode: Decoder)
    ensures Scan("&" + s, m, decode) == Scan(s, m, decode)
  {
    SkipGap("&", s, m, decode);
  }

  function Continue(m: Option<Params>, rest: Params -> Option<Params>): Option<Params> {
    if m.None? then None else rest(m.value)
  }

  lemma LastSegment(s: string, m: Params, decode: Decoder)
    requires ValueLength(s) == |s|
    ensures ParseSegments(SplitAmp(s), m, decode) == ParseSegment(m, s, decode)
  {
    assert SplitAmp(s) == [s] && [s][1..] == [];
  }

  lemma FirstSegment(s: string, n: nat, m: Params, decode: Decoder)
    requires n == ValueLength(s) < |s|
    ensures ParseSegments(SplitAmp(s), m, decode) ==
            Continue(ParseSegment(m, s[..n], decode), (m': Params) => ParseSegments(SplitAmp(s[n + 1..]), m', decode))
  {
    assert SplitAmp(s)[0] == s[..n] && SplitAmp(s)[1..] == SplitAmp(s[n + 1..]);
  }

  lemma NoAmpBefore(s: string)
    ensures '&' !in s[..ValueLength(s)]
  {
  }

  /** The regular-expression scan is the segment-by-segment reading. */
  lemma {:induction false} ScanIsPerSegment(s: string, m: Params, decode: Decoder)
    ensures Scan(s, m, decode) == ParseSegments(SplitAmp(s), m, decode)
    decreases |s|
  {
    var n := ValueLength(s);
    NoAmpBefore(s);
    if n == |s| {
      assert s[..n] == s && s + "" == s;
      ScanSegment(s, "", m, decode);
      LastSegment(s, m, decode);
    } else {
      var g, t := s[..n], s[n + 1..];
      assert s == g + ("&" + t);
      ScanSegment(g, "&" + t, m, decode);
      FirstSegment(s, n, m, decode);
      var m' := ParseSegment(m, g, decode);
      if m'.Some? {
        SkipAmp(t, m'.value, decode);
        ScanIsPerSegment(t, m'.value, decode);
      }
    }
  }

  // ---------- The printer ----------

  /** What a JSON text holds: nothing, no object of strings, or one, whose values may be null. */
  datatype Json = BlankText | NotAnObject | Object(fields: seq<(string, Option<string>)>)

  /** The insertion-ordered map that an object is read into; null is read as the empty string. */
  type Entries = seq<(string, string)>

  function Read(fields: seq<(string, Option<string>)>): Entries {
    seq(|fields|, i requires 0 <= i < |fields| => (fields[i].0, if fields[i].1.Some? then fields[i].1.value else ""))
  }

  function Entry(e: (string, string), decode: Decoder): Option<string> {
    var v := decode(e.1);
    if v.None? then None else Some(e.0 + "=" + v.value)
  }

  /** Every entry followed by '&'. */
  function Printed(m: Entries, decode: Decoder): Option<string> {
    if m == [] then Some("")
    else
      var e, t := Entry(m[0], decode), Printed(m[1..], decode);
      if e.None? || t.None? then None else Some(e.value + "&" + t.value)
  }

  /** The entries joined by '&'. */
  function Joined(m: Entries, decode: Decoder): Option<string>
    requires m != []
  {
    var e := Entry(m[0], decode);
    if |m| == 1 then e
    else
      var t := Joined(m[1..], decode);
      if e.None? || t.None? then None else Some(e.value + "&" + t.value)
  }

  function LastIndexOf(s: string, c: char): (k: int)
    ensures -1 <= k < |s|
    ensures 0 <= k ==> s[k] == c
    ensures forall i :: k < i < |s| ==> s[i] != c
  {
    if s == "" then -1
    else if s[|s| - 1] == c then |s| - 1
    else LastIndexOf(s[..|s| - 1], c)
  }

  /** toGetParam: blank text prints as nothing; an empty object has no '&' to cut at and throws, like malformed text. */
  method ToGetParam(json: Json, decode: Decoder) returns (r: Option<string>)
    ensures r == Print(json, decode)
    ensures json.BlankText? ==> r == Some("")
    ensures json.NotAnObject? ==> r == None
  {
    match json {
      case BlankText => r := Some("");
      case NotAnObject => r := None;
      case Object(fields) => r := PrintMap(Read(fields), decode);
    }
  }

  method PrintMap(m: Entries, decode: Decoder) returns (r: Option<string>)
    ensures r == if m == [] then None else Joined(m, decode)
  {
    r := Some("");
    var i := 0;
    AppendNothing(m, decode);
    while i < |m| && r.Some?
      invariant 0 <= i <= |m|
      invariant r.None? ==> Printed(m, decode) == None
      invariant r.Some? ==> Printed(m, decode) == Append(r.value, Printed(m[i..], decode))
    {
      var e := Entry(m[i], decode);
      assert m[i..][1..] == m[i + 1..];
      AppendTwice(r.value, if e.Some? then e.value + "&" else "", Printed(m[i + 1..], decode));
      r := if e.None? then None else Some(r.value + (e.value + "&"));
      i := i + 1;
    }
    if r.Some? {
      assert m[i..] == [];
      assert r.value + "" == r.value;
      var k := LastIndexOf(r.value, '&');
      CutIsJoined(m, decode);
      r := if k < 0 then None else Some(r.value[..k]);
    } else if m != [] {
      CutIsJoined(m, decode);
    }
  }

  function Append(s: string, t: Option<string>): Option<string> {
    if t.None? then None else Some(s + t.value)
  }

  lemma AppendNothing(m: Entries, decode: Decoder)
    ensures Append("", Printed(m[0..], decode)) == Printed(m, decode)
  {
    assert m[0..] == m;
    var t := Printed(m, decode);
    if t.Some? { assert "" + t.value == t.value; }
  }

  lemma AppendTwice(a: string, b: string, t: Option<string>)
    ensures Append(a, Append(b, t)) == Append(a + b, t)
  {
    if t.Some? { assert a + (b + t.value) == (a + b) + t.value; }
  }

  function Print(json: Json, decode: Decoder): Option<string> {
    match json
    case BlankText => Some("")
    case NotAnObject => None
    case Object(fields) => if fields == [] then None else Joined(Read(fields), decode)
  }

  /** Cutting at the last '&' removes exactly the trailing one. */
  lemma {:induction false} CutIsJoined(m: Entries, decode: Decoder)
    ensures m == [] ==> Printed(m, decode) == Some("") && LastIndexOf("", '&') < 0
    ensures m != [] ==> Printed(m, decode).Some? == Joined(m, decode).Some?
    ensures m != [] && Printed(m, decode).Some? ==>
              var s := Printed(m, decode).value;
              Joined(m, decode).value + "&" == s && LastIndexOf(s, '&') == |s| - 1 &&
              s[..|s| - 1] == Joined(m, decode).value
  {
    if m != [] {
      CutIsJoined(m[1..], decode);
      var e, t := Entry(m[0], decode), Printed(m[1..], decode);
      if e.Some? && t.Some? {
        if |m| > 1 {
          var j := Joined(m[1..], decode).value;
          assert e.value + "&" + (j + "&") == (e.value + "&" + j) + "&";
        } else {
          assert e.value + "&" + "" == e.value + "&";
        }
      }
    }
  }

  // ---------- Parsing what was printed ----------

  function Lift(m: Entries): Params {
    seq(|m|, i requires 0 <= i < |m| => (m[i].0, Some(m[i].1)))
  }

  ghost predicate DistinctNames(m: Entries) {
    forall i, j :: 0 <= i < j < |m| ==> m[i].0 != m[j].0
  }

  ghost predicate PlainEntries(m: Entries) {
    forall i :: 0 <= i < |m| ==> Plain(m[i].0) && Plain(m[i].1)
  }

  predicate GoodName(k: string) { k != "" && '&' !in k && '=' !in k }

  ghost predicate GoodEntries(m: Entries) {
    forall i :: 0 <= i < |m| ==> GoodName(m[i].0) && '&' !in m[i].1
  }

  /** Parsing what is printed for an object gives the map it was read into. */
  ghost predicate RoundTrips(fields: seq<(string, Option<string>)>, decode: Decoder) {
    var text := Print(Object(fields), decode);
    text.Some? && Scan(text.value, [], decode) == Some(Lift(Read(fields)))
  }

  lemma {:induction false} NameIs(k: string, v: string)
    requires GoodName(k)
    ensures Gap(k + "=" + v) == 0
    ensures NameLength(k + "=" + v) == |k|
  {
    var s := k + "=" + v;
    forall i | 0 <= i < |k| ensures s[i] == k[i] && !Separator(s[i]) {
      assert k[i] in k;
    }
    assert s[|k|] == '=';
  }

  lemma PutNew(m: Params, k: string, v: Option<string>)
    requires forall i :: 0 <= i < |m| ==> m[i].0 != k
    ensures PutParam(m, k, v) == m + [(k, v)]
  {
  }

  /** A printed entry reads back as itself. */
  lemma EntrySegment(acc: Params, e: (string, string), decode: Decoder)
    requires DecodesPlain(decode) && Plain(e.0) && Plain(e.1) && GoodName(e.0)
    requires forall i :: 0 <= i < |acc| ==> acc[i].0 != e.0
    ensures Entry(e, decode) == Some(e.0 + "=" + e.1)
    ensures ParseSegment(acc, e.0 + "=" + e.1, decode) == Some(acc + [(e.0, Some(e.1))])
  {
    var g := e.0 + "=" + e.1;
    NameIs(e.0, e.1);
    assert g[0..] == g && g[..|e.0|] == e.0 && g[|e.0| + 1..] == e.1;
    PutNew(acc, e.0, Some(e.1));
  }

  ghost predicate Fresh(acc: Params, m: Entries) {
    forall i, j :: 0 <= i < |acc| && 0 <= j < |m| ==> acc[i].0 != m[j].0
  }

  lemma ScanLast(g: string, acc: Params, acc': Params, decode: Decoder)
    requires '&' !in g && ParseSegment(acc, g, decode) == Some(acc')
    ensures Scan(g, acc, decode) == Some(acc')
  {
    ScanSegment(g, "", acc, decode);
    assert g + "" == g;
  }

  lemma ScanNext(g: string, t: string, acc: Params, acc': Params, decode: Decoder)
    requires '&' !in g && ParseSegment(acc, g, decode) == Some(acc')
    ensures Scan(g + "&" + t, acc, decode) == Scan(t, acc', decode)
  {
    ScanSegment(g, "&" + t, acc, decode);
    SkipAmp(t, acc', decode);
    assert g + "&" + t == g + ("&" + t);
  }

  /** The invariants of the induction over the entries still to be read. */
  lemma Tail(m: Entries, acc: Params)
    requires m != [] && DistinctNames(m) && PlainEntries(m) && GoodEntries(m) && Fresh(acc, m)
    ensures DistinctNames(m[1..]) && PlainEntries(m[1..]) && GoodEntries(m[1..])
    ensures Fresh(acc + [(m[0].0, Some(m[0].1))], m[1..])
    ensures acc + [(m[0].0, Some(m[0].1))] + Lift(m[1..]) == acc + Lift(m)
  {
  }

  lemma {:induction false} ScanJoined(m: Entries, acc: Params, decode: Decoder)
    requires DecodesPlain(decode) && m != [] && DistinctNames(m) && PlainEntries(m) && GoodEntries(m)
    requires Fresh(acc, m)
    ensures Joined(m, decode).Some? && Scan(Joined(m, decode).value, acc, decode) == Some(acc + Lift(m))
  {
    var e := m[0];
    var g, acc' := e.0 + "=" + e.1, acc + [(e.0, Some(e.1))];
    assert Entry(e, decode) == Some(g) && ParseSegment(acc, g, decode) == Some(acc') by {
      EntrySegment(acc, e, decode);
    }
    assert '&' !in g;
    if |m| == 1 {
      assert acc' == acc + Lift(m);
      ScanLast(g, acc, acc', decode);
    } else {
      assert Joined(m[1..], decode).Some? &&
             Scan(Joined(m[1..], decode).value, acc', decode) == Some(acc + Lift(m)) by {
        Tail(m, acc);
        ScanJoined(m[1..], acc', decode);
      }
      ScanNext(g, Joined(m[1..], decode).value, acc, acc', decode);
    }
  }

  // ---------- What the scanner can return on plain text ----------

  predicate GoodParam(p: (string, Option<string>)) {
    GoodName(p.0) && (p.1.Some? ==> '&' !in p.1.value)
  }

  ghost predicate GoodParams(m: Params) {
    forall i :: 0 <= i < |m| ==> GoodParam(m[i])
  }

  lemma {:induction false} PutGood(m: Params, k: string, v: Option<string>)
    requires GoodParams(m) && GoodParam((k, v))
    ensures GoodParams(PutParam(m, k, v))
  {
    if m != [] && m[0].0 != k { PutGood(m[1..], k, v); }
  }

  /** One match on plain text files a good parameter and leaves plain text. */
  lemma MatchGood(t: string, m: Params, decode: Decoder)
    requires DecodesPlain(decode) && Plain(t) && GoodParams(m) && t != "" && !Separator(t[0])
    ensures var (name, value, n) := MatchAt(t);
            Plain(t[n..]) && File(m, name, value, decode).Some? &&
            GoodParams(File(m, name, value, decode).value)
  {
    var (name, value, n) := MatchAt(t);
    assert Plain(name) && GoodName(name);
    if value.Some? { assert Plain(value.value) && '&' !in value.value; }
    PutGood(m, name, value);
  }

  /** On plain text the scanner never fails, and returns only names and values that '&' and '=' cannot split. */
  lemma {:induction false} ScanGood(s: string, m: Params, decode: Decoder)
    requires DecodesPlain(decode) && Plain(s) && GoodParams(m)
    ensures Scan(s, m, decode).Some? && GoodParams(Scan(s, m, decode).value)
    decreases |s|
  {
    if Gap(s) < |s| {
      var t := s[Gap(s)..];
      MatchGood(t, m, decode);
      var (name, value, n) := MatchAt(t);
      ScanFrom(s, Gap(s), t, m, decode);
      ScanGood(t[n..], File(m, name, value, decode).value, decode);
    }
  }

  lemma {:induction false} JoinedPlain(m: Entries, decode: Decoder)
    requires DecodesPlain(decode) && PlainEntries(m) && m != []
    ensures Joined(m, decode).Some? && Plain(Joined(m, decode).value)
  {
    if |m| > 1 { JoinedPlain(m[1..], decode); }
  }

  lemma MapRoundTrips(m: Entries, decode: Decoder)
    requires DecodesPlain(decode) && m != [] && DistinctNames(m) && PlainEntries(m) && GoodEntries(m)
    ensures Joined(m, decode).Some? && Scan(Joined(m, decode).value, [], decode) == Some(Lift(m))
  {
    var none: Params := [];
    assert none + Lift(m) == Lift(m);
    ScanJoined(m, none, decode);
  }

  lemma GoodRoundTrips(fields: seq<(string, Option<string>)>, decode: Decoder)
    requires DecodesPlain(decode) && DistinctNames(Read(fields)) && PlainEntries(Read(fields))
    requires fields != [] && GoodEntries(Read(fields))
    ensures RoundTrips(fields, decode)
  {
    MapRoundTrips(Read(fields), decode);
  }

  lemma RoundTripsGood(fields: seq<(string, Option<string>)>, decode: Decoder)
    requires DecodesPlain(decode) && PlainEntries(Read(fields)) && RoundTrips(fields, decode)
    ensures GoodEntries(Read(fields))
  {
    var m := Read(fields);
    assert GoodParams(Lift(m)) by {
      JoinedPlain(m, decode);
      ScanGood(Joined(m, decode).value, [], decode);
    }
    forall i | 0 <= i < |m| ensures GoodName(m[i].0) && '&' !in m[i].1 {
      assert GoodParam(Lift(m)[i]);
    }
  }

  /** Parsing undoes printing exactly for the objects whose names and values '&' and '=' cannot split. */
  lemma RoundTrip(fields: seq<(string, Option<string>)>, decode: Decoder)
    requires DecodesPlain(decode) && DistinctNames(Read(fields)) && PlainEntries(Read(fields))
    ensures RoundTrips(fields, decode) <==> fields != [] && GoodEntries(Read(fields))
  {
    if RoundTrips(fields, decode) {
      RoundTripsGood(fields, decode);
    } else if fields != [] && GoodEntries(Read(fields)) {
      GoodRoundTrips(fields, decode);
    }
  }
}
