/**
 Wildcard matching of host addresses by dynamic programming, and the host choice built on it.
 */
module IpMatch {
  import opened Options

  // ---------- What matching means ----------

  /** '*' stands for any run of characters, '?' for any one, everything else for itself. */
  ghost predicate Matches(s: string, p: string)
    decreases |p|
  {
    if p == "" then s == ""
    else if p[0] == '*' then exists k :: 0 <= k <= |s| && Matches(s[k..], p[1..])
    else s != "" && Fits(s[0], p[0]) && Matches(s[1..], p[1..])
  }

  predicate Fits(c: char, p: char) { p == '?' || c == p }

  /** Matching splits at any point of the pattern. */
  ghost predicate SplitMatch(s: string, p: string, q: string) {
    exists k :: 0 <= k <= |s| && Matches(s[..k], p) && Matches(s[k..], q)
  }

  lemma {:induction false} MatchesSplit(s: string, p: string, q: string)
    ensures Matches(s, p + q) <==> SplitMatch(s, p, q)
    decreases |p|
  {
    if p == "" {
      assert p + q == q;
      assert s[0..] == s && s[..0] == "";
    } else if p[0] == '*' {
      SplitAfterStar(s, p, q);
    } else {
      SplitAfterChar(s, p, q);
    }
  }

  lemma SplitAfterChar(s: string, p: string, q: string)
    requires p != "" && p[0] != '*'
    ensures Matches(s, p + q) <==> SplitMatch(s, p, q)
    decreases |p|, 0
  {
    assert (p + q)[1..] == p[1..] + q;
    if s != "" {
      MatchesSplit(s[1..], p[1..], q);
      if SplitMatch(s[1..], p[1..], q) && Fits(s[0], p[0]) {
        var k :| 0 <= k <= |s[1..]| && Matches(s[1..][..k], p[1..]) && Matches(s[1..][k..], q);
        assert s[..k + 1][1..] == s[1..][..k] && s[k + 1..] == s[1..][k..];
        assert Matches(s[..k + 1], p) && Matches(s[k + 1..], q);
      }
      if SplitMatch(s, p, q) {
        var k :| 0 <= k <= |s| && Matches(s[..k], p) && Matches(s[k..], q);
        assert s[..k][1..] == s[1..][..k - 1] && s[k..] == s[1..][k - 1..];
      }
    }
  }

  lemma SplitAfterStar(s: string, p: string, q: string)
    requires p != "" && p[0] == '*'
    ensures Matches(s, p + q) <==> SplitMatch(s, p, q)
    decreases |p|, 0
  {
    assert (p + q)[1..] == p[1..] + q;
    if Matches(s, p + q) {
      var j :| 0 <= j <= |s| && Matches(s[j..], p[1..] + q);
      MatchesSplit(s[j..], p[1..], q);
      var k :| 0 <= k <= |s[j..]| && Matches(s[j..][..k], p[1..]) && Matches(s[j..][k..], q);
      assert s[..j + k][j..] == s[j..][..k] && s[j + k..] == s[j..][k..];
      assert Matches(s[..j + k], p);
    }
    if SplitMatch(s, p, q) {
      var k :| 0 <= k <= |s| && Matches(s[..k], p) && Matches(s[k..], q);
      var j :| 0 <= j <= k && Matches(s[..k][j..], p[1..]);
      MatchesSplit(s[j..], p[1..], q);
      assert s[..k][j..] == s[j..][..k - j] && s[k..] == s[j..][k - j..];
      assert SplitMatch(s[j..], p[1..], q);
    }
  }

  lemma MatchesStar(s: string)
    ensures Matches(s, "*")
  {
    assert s[|s|..] == "";
    assert Matches(s[|s|..], "*"[1..]);
  }

  lemma MatchesOne(s: string, c: char)
    requires c != '*'
    ensures Matches(s, [c]) <==> |s| == 1 && Fits(s[0], c)
  {
    assert [c][1..] == "";
  }

  // ---------- The table's recurrence, read from the back ----------

  /** Entry (i, j) of the table: does the prefix of length i match the pattern's prefix of length j? */
  ghost predicate Cell(s: string, p: string, i: nat, j: nat)
    requires i <= |s| && j <= |p|
  {
    Matches(s[..i], p[..j])
  }

  lemma CellEmptyPattern(s: string, p: string, i: nat)
    requires i <= |s|
    ensures Cell(s, p, i, 0) <==> i == 0
  {
  }

  ghost predicate MatchesPrefix(s: string, q: string) {
    exists k :: 0 <= k <= |s| && Matches(s[..k], q)
  }

  /** A pattern that ends in '*' matches exactly when the rest of it matches some prefix. */
  lemma EndsInStar(s: string, q: string)
    ensures Matches(s, q + "*") <==> MatchesPrefix(s, q)
  {
    MatchesSplit(s, q, "*");
    if MatchesPrefix(s, q) {
      var k :| 0 <= k <= |s| && Matches(s[..k], q);
      MatchesStar(s[k..]);
    }
  }

  lemma PrefixOfLast(s: string, q: string)
    requires s != ""
    ensures MatchesPrefix(s, q) <==> Matches(s, q) || MatchesPrefix(s[..|s| - 1], q)
  {
    var t := s[..|s| - 1];
    if MatchesPrefix(s, q) {
      var k :| 0 <= k <= |s| && Matches(s[..k], q);
      if k == |s| {
        assert s[..k] == s;
      } else {
        assert t[..k] == s[..k];
      }
    }
    if Matches(s, q) {
      assert s[..|s|] == s;
    }
    if MatchesPrefix(t, q) {
      var k :| 0 <= k <= |t| && Matches(t[..k], q);
      assert s[..k] == t[..k];
    }
  }

  lemma CellStar(s: string, p: string, i: nat, j: nat)
    requires i <= |s| && 0 < j <= |p| && p[j - 1] == '*'
    ensures Cell(s, p, i, j) <==> Cell(s, p, i, j - 1) || (i > 0 && Cell(s, p, i - 1, j))
  {
    var q := p[..j - 1];
    assert p[..j] == q + "*";
    EndsInStar(s[..i], q);
    if i > 0 {
      EndsInStar(s[..i - 1], q);
      assert s[..i][..i - 1] == s[..i - 1];
      PrefixOfLast(s[..i], q);
    } else {
      NoShorterPrefix(q);
    }
  }

  lemma NoShorterPrefix(q: string)
    ensures MatchesPrefix("", q) <==> Matches("", q)
  {
    assert ""[..0] == "";
  }

  lemma CellChar(s: string, p: string, i: nat, j: nat)
    requires i <= |s| && 0 < j <= |p| && p[j - 1] != '*'
    ensures Cell(s, p, i, j) <==> i > 0 && Fits(s[i - 1], p[j - 1]) && Cell(s, p, i - 1, j - 1)
  {
    var t, c := s[..i], p[j - 1];
    assert p[..j] == p[..j - 1] + [c];
    MatchesSplit(t, p[..j - 1], [c]);
    forall k | 0 <= k <= i ensures t[..k] == s[..k] && (Matches(t[k..], [c]) <==> k == i - 1 && Fits(s[i - 1], c)) {
      MatchesOne(t[k..], c);
    }
  }

  // ---------- The table ----------

  /** Fills the table row by row. Cells never written keep Java's default, false. */
  method Match(ip: string, pattern: string) returns (r: bool)
    ensures r <==> Matches(ip, pattern)
  {
    var m, n := |ip|, |pattern|;
    var dp := new bool[m + 1, n + 1]((i, j) => false);
    FillFirstRow(dp, ip, pattern);
    var i := 1;
    while i <= m
      invariant 1 <= i <= m + 1
      invariant forall a, b :: 0 <= a < i && 0 <= b <= n ==> (dp[a, b] <==> Cell(ip, pattern, a, b))
      invariant forall a, b :: i <= a <= m && 0 <= b <= n ==> !dp[a, b]
    {
      FillRow(dp, ip, pattern, i);
      i := i + 1;
    }
    assert ip[..m] == ip && pattern[..n] == pattern;
    r := dp[m, n];
  }

  method FillFirstRow(dp: array2<bool>, ip: string, pattern: string)
    requires dp.Length0 == |ip| + 1 && dp.Length1 == |pattern| + 1
    requires forall a, b :: 0 <= a <= |ip| && 0 <= b <= |pattern| ==> !dp[a, b]
    modifies dp
    ensures forall b :: 0 <= b <= |pattern| ==> (dp[0, b] <==> Cell(ip, pattern, 0, b))
    ensures forall a, b :: 1 <= a <= |ip| && 0 <= b <= |pattern| ==> !dp[a, b]
  {
    dp[0, 0] := true;
    CellEmptyPattern(ip, pattern, 0);
    var i := 1;
    while i <= |pattern| && pattern[i - 1] == '*'
      invariant 1 <= i <= |pattern| + 1
      invariant forall b :: 0 <= b < i ==> dp[0, b] && Cell(ip, pattern, 0, b)
      invariant forall b :: i <= b <= |pattern| ==> !dp[0, b]
      invariant forall a, b :: 1 <= a <= |ip| && 0 <= b <= |pattern| ==> !dp[a, b]
    {
      CellStar(ip, pattern, 0, i);
      dp[0, i] := true;
      i := i + 1;
    }
    if i <= |pattern| {
      forall b | i <= b <= |pattern| ensures !Cell(ip, pattern, 0, b) {
        NoMatchAfterChar(ip, pattern, i, b);
      }
    }
  }

  lemma {:induction false} NoMatchAfterChar(ip: string, pattern: string, i: nat, b: nat)
    requires 1 <= i <= b <= |pattern| && pattern[i - 1] != '*'
    ensures !Cell(ip, pattern, 0, b)
    decreases b
  {
    if pattern[b - 1] == '*' {
      CellStar(ip, pattern, 0, b);
      NoMatchAfterChar(ip, pattern, i, b - 1);
    } else {
      CellChar(ip, pattern, 0, b);
    }
  }

  method FillRow(dp: array2<bool>, ip: string, pattern: string, i: nat)
    requires dp.Length0 == |ip| + 1 && dp.Length1 == |pattern| + 1 && 1 <= i <= |ip|
    requires forall a, b :: 0 <= a < i && 0 <= b <= |pattern| ==> (dp[a, b] <==> Cell(ip, pattern, a, b))
    requires forall a, b :: i <= a <= |ip| && 0 <= b <= |pattern| ==> !dp[a, b]
    modifies dp
    ensures forall a, b :: 0 <= a <= i && 0 <= b <= |pattern| ==> (dp[a, b] <==> Cell(ip, pattern, a, b))
    ensures forall a, b :: i < a <= |ip| && 0 <= b <= |pattern| ==> !dp[a, b]
  {
    CellEmptyPattern(ip, pattern, i);
    var j := 1;
    while j <= |pattern|
      invariant 1 <= j <= |pattern| + 1
      invariant forall a, b :: 0 <= a < i && 0 <= b <= |pattern| ==> (dp[a, b] <==> Cell(ip, pattern, a, b))
      invariant forall b :: 0 <= b < j ==> (dp[i, b] <==> Cell(ip, pattern, i, b))
      invariant forall b :: j <= b <= |pattern| ==> !dp[i, b]
      invariant forall a, b :: i < a <= |ip| && 0 <= b <= |pattern| ==> !dp[a, b]
    {
      if pattern[j - 1] == '*' {
        CellStar(ip, pattern, i, j);
        dp[i, j] := dp[i, j - 1] || dp[i - 1, j];
      } else {
        CellChar(ip, pattern, i, j);
        if pattern[j - 1] == '?' || ip[i - 1] == pattern[j - 1] {
          dp[i, j] := dp[i - 1, j - 1];
        }
      }
      j := j + 1;
    }
  }

  // ---------- Literal patterns ----------

  predicate Literal(p: string) { '*' !in p && '?' !in p }

  lemma {:induction false} MatchesLiteral(s: string, p: string)
    requires Literal(p)
    ensures Matches(s, p) <==> s == p
  {
    if p != "" {
      assert p[0] in p;
      if s != "" {
        MatchesLiteral(s[1..], p[1..]);
        assert s == [s[0]] + s[1..] && p == [p[0]] + p[1..];
      }
    }
  }

  /** A literal with a star appended matches exactly the strings that start with it. */
  lemma MatchesLiteralStar(s: string, p: string)
    requires Literal(p)
    ensures Matches(s, p + "*") <==> p <= s
  {
    EndsInStar(s, p);
    if MatchesPrefix(s, p) {
      var k :| 0 <= k <= |s| && Matches(s[..k], p);
      MatchesLiteral(s[..k], p);
    }
    if p <= s {
      assert s[..|p|] == p;
      MatchesLiteral(s[..|p|], p);
    }
  }

  // ---------- Complete addresses ----------

  predicate Digit(c: char) { '0' <= c <= '9' }

  /** 25[0-5], 2[0-4] and a digit, or one to three digits of which a third leading one is 0 or 1. */
  predicate Octet(o: string) {
    && 1 <= |o| <= 3 && (forall c :: c in o ==> Digit(c))
    && (|o| == 3 ==> o[0] <= '1' || (o[0] == '2' && (o[1] <= '4' || (o[1] == '5' && o[2] <= '5'))))
  }

  /** The parts between dots; `part` is the part being read. */
  function Parts(h: string, part: string): seq<string> {
    if h == "" then [part]
    else if h[0] == '.' then [part] + Parts(h[1..], "")
    else Parts(h[1..], part + [h[0]])
  }

  predicate CompleteHost(h: string) {
    |Parts(h, "")| == 4 && forall o :: o in Parts(h, "") ==> Octet(o)
  }

  lemma {:induction false} PartsCover(h: string, part: string)
    ensures forall c :: c in h ==> c == '.' || exists o :: o in Parts(h, part) && c in o
    ensures forall c :: c in part ==> exists o :: o in Parts(h, part) && c in o
  {
    if h == "" {
      assert part in Parts(h, part);
    } else if h[0] == '.' {
      PartsCover(h[1..], "");
      assert part in Parts(h, part);
      assert h == [h[0]] + h[1..];
    } else {
      PartsCover(h[1..], part + [h[0]]);
      assert h == [h[0]] + h[1..];
      assert forall c :: c in part ==> c in part + [h[0]];
      assert h[0] in part + [h[0]];
    }
  }

  /** A complete address is a literal pattern. */
  lemma CompleteIsLiteral(h: string)
    requires CompleteHost(h)
    ensures Literal(h)
  {
    PartsCover(h, "");
    forall c | c in h ensures c == '.' || Digit(c) {
    }
  }

  function DigitValue(c: char): nat
    requires Digit(c)
  {
    c as int - '0' as int
  }

  /** The number that a string of digits stands for. */
  function Number(o: string): nat
    requires forall c :: c in o ==> Digit(c)
  {
    if o == "" then 0 else 10 * Number(o[..|o| - 1]) + DigitValue(o[|o| - 1])
  }

  /** The octets are the numbers up to 255 in at most three digits. */
  lemma OctetIs(o: string)
    ensures Octet(o) <==> 1 <= |o| <= 3 && (forall c :: c in o ==> Digit(c)) && Number(o) <= 255
  {
    if 1 <= |o| <= 3 && forall c :: c in o ==> Digit(c) {
      forall i | 0 <= i < |o| ensures Digit(o[i]) {
        assert o[i] in o;
      }
      if |o| == 3 {
        assert o[..2][..1] == o[..1] && o[..1][..0] == "";
        assert Number(o) == 100 * DigitValue(o[0]) + 10 * DigitValue(o[1]) + DigitValue(o[2]) by {
          assert Number(o[..1]) == DigitValue(o[0]);
          assert Number(o[..2]) == 10 * Number(o[..1]) + DigitValue(o[1]);
        }
      } else if |o| == 2 {
        assert o[..1][..0] == "";
        assert Number(o[..1]) == DigitValue(o[0]);
      } else {
        assert o[..0] == "";
      }
    }
  }

  lemma {:induction false} PartsOf(a: string, rest: string, part: string)
    requires '.' !in a && (rest == "" || rest[0] == '.')
    ensures Parts(a + rest, part) == if rest == "" then [part + a] else [part + a] + Parts(rest[1..], "")
  {
    if a == "" {
      assert a + rest == rest && part + a == part;
    } else {
      assert a[0] in a && (a + rest)[1..] == a[1..] + rest;
      PartsOf(a[1..], rest, part + [a[0]]);
      assert part + [a[0]] + a[1..] == part + a;
    }
  }

  lemma OctetHasNoDot(o: string)
    requires Octet(o)
    ensures '.' !in o
  {
  }

  function Dotted(a: string, b: string, c: string, d: string): string { a + ("." + (b + ("." + (c + ("." + d))))) }

  lemma DottedParts(a: string, b: string, c: string, d: string)
    requires '.' !in a && '.' !in b && '.' !in c && '.' !in d
    ensures Parts(Dotted(a, b, c, d), "") == [a, b, c, d]
  {
    var z := "." + d;
    var y := "." + (c + z);
    var x := "." + (b + y);
    PartsOf(a, x, "");
    assert "" + a == a && x[1..] == b + y;
    PartsOf(b, y, "");
    assert "" + b == b && y[1..] == c + z;
    PartsOf(c, z, "");
    assert "" + c == c && z[1..] == d;
    PartsOf(d, "", "");
    assert d + "" == d && "" + d == d;
  }

  function JoinDots(ps: seq<string>): string
    requires ps != []
  {
    if |ps| == 1 then ps[0] else ps[0] + ("." + JoinDots(ps[1..]))
  }

  lemma {:induction false} PartsJoin(h: string, part: string)
    ensures Parts(h, part) != [] && JoinDots(Parts(h, part)) == part + h
  {
    if h == "" {
      assert part + h == part;
    } else if h[0] == '.' {
      PartsJoin(h[1..], "");
      var t := Parts(h[1..], "");
      assert ([part] + t)[1..] == t;
      assert "" + h[1..] == h[1..] && "." + h[1..] == h;
    } else {
      PartsJoin(h[1..], part + [h[0]]);
      assert part + [h[0]] + h[1..] == part + h;
    }
  }

  lemma JoinFour(ps: seq<string>)
    requires |ps| == 4
    ensures JoinDots(ps) == Dotted(ps[0], ps[1], ps[2], ps[3])
  {
    var t := ps[1..];
    var u := t[1..];
    assert JoinDots(u[1..]) == ps[3];
    assert JoinDots(u) == ps[2] + ("." + ps[3]);
    assert JoinDots(t) == ps[1] + ("." + JoinDots(u));
  }

  ghost predicate Quad(h: string, a: string, b: string, c: string, d: string) {
    h == Dotted(a, b, c, d) && Octet(a) && Octet(b) && Octet(c) && Octet(d)
  }

  /** The complete addresses are exactly four octets joined by dots. */
  lemma CompleteIs(h: string)
    ensures CompleteHost(h) <==> exists a, b, c, d :: Quad(h, a, b, c, d)
  {
    if CompleteHost(h) {
      var ps := Parts(h, "");
      PartsJoin(h, "");
      JoinFour(ps);
      assert "" + h == h;
      assert Octet(ps[0]) && Octet(ps[1]) && Octet(ps[2]) && Octet(ps[3]);
      assert Quad(h, ps[0], ps[1], ps[2], ps[3]);
    }
    if a, b, c, d :| Quad(h, a, b, c, d) {
      OctetHasNoDot(a); OctetHasNoDot(b); OctetHasNoDot(c); OctetHasNoDot(d);
      DottedParts(a, b, c, d);
    }
  }

  // ---------- Choosing the host ----------

  datatype Address = Address(host: string, loopback: bool)

  predicate Eligible(a: Address) { '.' in a.host && !a.loopback }

  function PatternOf(filter: string): string {
    if '*' !in filter && !CompleteHost(filter) then filter + "*" else filter
  }

  function FirstHost(xs: seq<Address>): Option<string> {
    if xs == [] then None
    else
      var r := FirstHost(xs[..|xs| - 1]);
      if r.Some? then r else if Eligible(xs[|xs| - 1]) then Some(xs[|xs| - 1].host) else None
  }

  ghost function LastHost(xs: seq<Address>, p: string): Option<string> {
    if xs == [] then None
    else if Eligible(xs[|xs| - 1]) && Matches(xs[|xs| - 1].host, p) then Some(xs[|xs| - 1].host)
    else LastHost(xs[..|xs| - 1], p)
  }

  function Flatten(nics: seq<seq<Address>>): seq<Address> {
    if nics == [] then [] else Flatten(nics[..|nics| - 1]) + nics[|nics| - 1]
  }

  /** Local host lookup, which may throw. */
  function Fallback(local: Option<string>): string {
    if local.Some? then local.value else "127.0.0.1"
  }

  /** The host that getHost picks from the addresses of all interfaces. */
  ghost function HostOf(filter: Option<string>, xs: seq<Address>, local: Option<string>): string {
    var matched := if filter.Some? then LastHost(xs, PatternOf(filter.value)) else None;
    if matched.Some? then matched.value
    else if FirstHost(xs).Some? then FirstHost(xs).value
    else Fallback(local)
  }

  /** The addresses of one interface: `first` is set once, `host` follows every match, and without a filter the first hit ends the loop. */
  method ScanInterface(filter: Option<string>, pattern: Option<string>, nic: seq<Address>,
                       first0: Option<string>, host0: Option<string>, ghost before: seq<Address>)
    returns (first: Option<string>, host: Option<string>)
    requires first0 == FirstHost(before) && (pattern.Some? <==> filter.Some?)
    requires host0 == LastMatch(before, pattern)
    ensures first == FirstHost(before + nic)
    ensures host == LastMatch(before + nic, pattern)
  {
    first, host := first0, host0;
    var j, stop := 0, false;
    assert before + nic[..0] == before;
    while j < |nic| && !stop
      invariant 0 <= j <= |nic|
      invariant stop ==> first.Some? && filter.None?
      invariant first == FirstHost(before + nic[..j])
      invariant host == LastMatch(before + nic[..j], pattern)
    {
      var a := nic[j];
      HostsSnoc(before, nic, j, pattern);
      if '.' in a.host && !a.loopback {
        if first.None? {
          first := Some(a.host);
          stop := filter.None?;
        }
        if pattern.Some? {
          var hit := Match(a.host, pattern.value);
          host := if hit then Some(a.host) else host;
        }
      }
      j := j + 1;
    }
    if stop {
      StoppedEarly(before, nic, j);
    } else {
      assert nic[..j] == nic;
    }
  }

  lemma StoppedEarly(before: seq<Address>, nic: seq<Address>, j: nat)
    requires j <= |nic| && FirstHost(before + nic[..j]).Some?
    ensures FirstHost(before + nic) == FirstHost(before + nic[..j])
  {
    assert before + nic == (before + nic[..j]) + nic[j..];
    FirstStays(before + nic[..j], nic[j..]);
  }

  ghost function LastMatch(xs: seq<Address>, pattern: Option<string>): Option<string> {
    if pattern.Some? then LastHost(xs, pattern.value) else None
  }

  /** What one more address does to the two choices. */
  lemma HostsSnoc(before: seq<Address>, nic: seq<Address>, j: nat, pattern: Option<string>)
    requires j < |nic|
    ensures var xs, a := before + nic[..j], nic[j];
            && FirstHost(before + nic[..j + 1]) ==
               (if FirstHost(xs).Some? then FirstHost(xs) else if Eligible(a) then Some(a.host) else None)
            && LastMatch(before + nic[..j + 1], pattern) ==
               (if pattern.Some? && Eligible(a) && Matches(a.host, pattern.value) then Some(a.host) else LastMatch(xs, pattern))
  {
    assert (before + nic[..j + 1])[..|before| + j] == before + nic[..j];
  }

  lemma {:induction false} FirstStays(a: seq<Address>, b: seq<Address>)
    requires FirstHost(a).Some?
    ensures FirstHost(a + b) == FirstHost(a)
  {
    if b == [] {
      assert a + b == a;
    } else {
      assert (a + b)[..|a + b| - 1] == a + b[..|b| - 1];
      FirstStays(a, b[..|b| - 1]);
    }
  }

  /** getHost; None for `nics` stands for an exception while enumerating the interfaces. */
  method GetHost(filter: Option<string>, nics: Option<seq<seq<Address>>>, local: Option<string>) returns (r: string)
    ensures nics.None? ==> r == "127.0.0.1"
    ensures nics.Some? ==> r == HostOf(filter, Flatten(nics.value), local)
  {
    if nics.None? {
      return "127.0.0.1";
    }
    var pattern := filter;
    if filter.Some? && '*' !in filter.value && !CompleteHost(filter.value) {
      pattern := Some(filter.value + "*");
    }
    var first: Option<string>, host: Option<string> := None, None;
    var ns := nics.value;
    for i := 0 to |ns|
      invariant first == FirstHost(Flatten(ns[..i]))
      invariant host == LastMatch(Flatten(ns[..i]), pattern)
    {
      assert ns[..i + 1][..i] == ns[..i];
      first, host := ScanInterface(filter, pattern, ns[i], first, host, Flatten(ns[..i]));
    }
    assert ns[..|ns|] == ns;
    if host.None? && first.Some? {
      host := first;
    }
    r := if host.Some? then host.value else Fallback(local);
  }

  // ---------- What the choice amounts to ----------

  ghost predicate FirstAt(xs: seq<Address>, i: int) {
    0 <= i < |xs| && Eligible(xs[i]) && forall j :: 0 <= j < i ==> !Eligible(xs[j])
  }

  /** An address that a partial filter f may pick. */
  ghost predicate Candidate(a: Address, f: string) { Eligible(a) && f <= a.host }

  ghost predicate LastPrefixAt(xs: seq<Address>, f: string, i: int) {
    0 <= i < |xs| && Candidate(xs[i], f) && forall j :: i < j < |xs| ==> !Candidate(xs[j], f)
  }

  lemma {:induction false} FirstHostAt(xs: seq<Address>)
    ensures FirstHost(xs).None? <==> forall i :: 0 <= i < |xs| ==> !Eligible(xs[i])
    ensures forall i :: FirstAt(xs, i) ==> FirstHost(xs) == Some(xs[i].host)
  {
    if xs != [] {
      var ys := xs[..|xs| - 1];
      FirstHostAt(ys);
      forall i | FirstAt(xs, i) ensures FirstHost(xs) == Some(xs[i].host) {
        if i < |ys| {
          assert FirstAt(ys, i);
        }
      }
    }
  }

  lemma {:induction false} NoLastHost(xs: seq<Address>, f: string)
    requires Literal(f)
    ensures LastHost(xs, f + "*").None? <==> forall i :: 0 <= i < |xs| ==> !Candidate(xs[i], f)
  {
    if xs != [] {
      var n := |xs| - 1;
      NoLastHost(xs[..n], f);
      MatchesLiteralStar(xs[n].host, f);
      assert xs == xs[..n] + [xs[n]];
    }
  }

  lemma {:induction false} LastHostAt(xs: seq<Address>, f: string, i: nat)
    requires Literal(f) && LastPrefixAt(xs, f, i)
    ensures LastHost(xs, f + "*") == Some(xs[i].host)
  {
    var n := |xs| - 1;
    MatchesLiteralStar(xs[n].host, f);
    if i < n {
      assert !Candidate(xs[n], f);
      assert LastPrefixAt(xs[..n], f, i);
      LastHostAt(xs[..n], f, i);
    }
  }

  /**
   A partial filter without wildcards picks the last eligible address that starts with it; if there
   is none, the first eligible address; if there is none either, the local host.
   */
  lemma PartialFilter(f: string, xs: seq<Address>, local: Option<string>, i: nat)
    requires Literal(f) && !CompleteHost(f)
    ensures LastPrefixAt(xs, f, i) ==> HostOf(Some(f), xs, local) == xs[i].host
    ensures (forall j :: 0 <= j < |xs| ==> !Candidate(xs[j], f)) && FirstAt(xs, i) ==>
              HostOf(Some(f), xs, local) == xs[i].host
    ensures (forall j :: 0 <= j < |xs| ==> !Eligible(xs[j])) ==> HostOf(Some(f), xs, local) == (if local.Some? then local.value else "127.0.0.1")
  {
    NoLastHost(xs, f);
    FirstHostAt(xs);
    if LastPrefixAt(xs, f, i) {
      LastHostAt(xs, f, i);
    }
  }

  lemma {:induction false} LastHostFrom(xs: seq<Address>, p: string) returns (i: nat)
    requires LastHost(xs, p).Some?
    ensures i < |xs| && Eligible(xs[i]) && LastHost(xs, p) == Some(xs[i].host)
  {
    var n := |xs| - 1;
    if Eligible(xs[n]) && Matches(xs[n].host, p) {
      i := n;
    } else {
      i := LastHostFrom(xs[..n], p);
    }
  }

  lemma {:induction false} FirstHostFrom(xs: seq<Address>) returns (i: nat)
    requires FirstHost(xs).Some?
    ensures i < |xs| && Eligible(xs[i]) && FirstHost(xs) == Some(xs[i].host)
  {
    var n := |xs| - 1;
    if FirstHost(xs[..n]).Some? {
      i := FirstHostFrom(xs[..n]);
    } else {
      i := n;
    }
  }

  /** The host of an interface, with a dot in it and no loopback. */
  ghost predicate Real(xs: seq<Address>, h: string) {
    exists i :: 0 <= i < |xs| && xs[i].host == h && '.' in xs[i].host && !xs[i].loopback
  }

  /** Whatever the filter, no loopback address of an interface and no address without a dot is chosen over a real one. */
  lemma HostIsReal(filter: Option<string>, xs: seq<Address>, local: Option<string>, h: string)
    requires Real(xs, h)
    ensures Real(xs, HostOf(filter, xs, local))
  {
    FirstHostAt(xs);
    var i :| 0 <= i < |xs| && xs[i].host == h && '.' in xs[i].host && !xs[i].loopback;
    assert Eligible(xs[i]);
    var matched := if filter.Some? then LastHost(xs, PatternOf(filter.value)) else None;
    if matched.Some? {
      var j := LastHostFrom(xs, PatternOf(filter.value));
    } else {
      var j := FirstHostFrom(xs);
    }
  }

  /** Without a filter the first eligible address is picked, and the local host if there is none. */
  lemma NoFilter(xs: seq<Address>, local: Option<string>, i: nat)
    ensures FirstAt(xs, i) ==> HostOf(None, xs, local) == xs[i].host
    ensures (forall j :: 0 <= j < |xs| ==> !Eligible(xs[j])) ==> HostOf(None, xs, local) == (if local.Some? then local.value else "127.0.0.1")
  {
    FirstHostAt(xs);
  }

  /** An address that pattern p may pick. */
  ghost predicate Picked(a: Address, p: string) { Eligible(a) && Matches(a.host, p) }

  ghost predicate LastPickedAt(xs: seq<Address>, p: string, i: int) {
    0 <= i < |xs| && Picked(xs[i], p) && forall j :: i < j < |xs| ==> !Picked(xs[j], p)
  }

  lemma {:induction false} LastHostIs(xs: seq<Address>, p: string)
    ensures forall i :: LastPickedAt(xs, p, i) ==> LastHost(xs, p) == Some(xs[i].host)
    ensures (forall j :: 0 <= j < |xs| ==> !Picked(xs[j], p)) ==> LastHost(xs, p) == None
  {
    if xs != [] {
      var n := |xs| - 1;
      LastHostIs(xs[..n], p);
      forall i | LastPickedAt(xs, p, i) ensures LastHost(xs, p) == Some(xs[i].host) {
        if i < n {
          assert !Picked(xs[n], p);
          assert LastPickedAt(xs[..n], p, i);
        }
      }
    }
  }

  /**
   Any filter, wildcards or not: the last eligible address that its pattern matches; if there is none,
   the first eligible address; if there is none either, the local host. The pattern is the filter
   itself if it has a star or is complete, and otherwise the filter with a star appended.
   */
  lemma AnyFilter(f: string, xs: seq<Address>, local: Option<string>, i: nat)
    ensures var p := if '*' in f || CompleteHost(f) then f else f + "*";
            && (LastPickedAt(xs, p, i) ==> HostOf(Some(f), xs, local) == xs[i].host)
            && ((forall j :: 0 <= j < |xs| ==> !Picked(xs[j], p)) && FirstAt(xs, i) ==> HostOf(Some(f), xs, local) == xs[i].host)
            && ((forall j :: 0 <= j < |xs| ==> !Eligible(xs[j])) ==> HostOf(Some(f), xs, local) == (if local.Some? then local.value else "127.0.0.1"))
  {
    var p := if '*' in f || CompleteHost(f) then f else f + "*";
    LastHostIs(xs, p);
    FirstHostAt(xs);
  }

  /** A complete filter can only pick itself or fall back to the first eligible address. */
  lemma {:induction false} CompleteFilter(f: string, xs: seq<Address>)
    requires CompleteHost(f)
    ensures LastHost(xs, PatternOf(f)) == if exists i :: 0 <= i < |xs| && Eligible(xs[i]) && xs[i].host == f then Some(f) else None
  {
    CompleteIsLiteral(f);
    if xs != [] {
      var n := |xs| - 1;
      CompleteFilter(f, xs[..n]);
      MatchesLiteral(xs[n].host, f);
    }
  }
}
