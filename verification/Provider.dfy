/**
 From a provider's page to candidates (`ProviderSpec::extract` in `src/provider.rs`), and the round
 trip: a list of addresses printed one per line is what both scanners read back.
 */
module Provider {
  import opened Wrappers
  import opened Numbers
  import opened Scanner

  type Octet = n: int | 0 <= n < 256

  datatype Quad = Quad(a: Octet, b: Octet, c: Octet, d: Octet)

  const UNSPECIFIED := Quad(0, 0, 0, 0)

  datatype Entry = Entry(host: Quad, port: nat)

  /** `Ipv4Addr::to_string`. */
  function QuadString(q: Quad): string {
    Decimal(q.a) + "." + Decimal(q.b) + "." + Decimal(q.c) + "." + Decimal(q.d)
  }

  // ----- Reading an address -----

  /** One octet as the standard library reads it: at most three digits, no leading zero, at most 255. */
  function ParseOctet(s: string): Option<Octet> {
    if s == "" || |s| > 3 || !AllDigits(s) || (|s| > 1 && s[0] == '0') || Value(s) > 255 then None
    else Some(Value(s))
  }

  /** `IpAddr::from_str` on dotted text. */
  function ParseQuad(s: string): Option<Quad> {
    var parts := SplitOn(s, '.');
    if |parts| != 4 then None
    else
      var a, b, c, d := ParseOctet(parts[0]), ParseOctet(parts[1]), ParseOctet(parts[2]), ParseOctet(parts[3]);
      if a.Some? && b.Some? && c.Some? && d.Some? then Some(Quad(a.value, b.value, c.value, d.value)) else None
  }

  lemma OctetReads(n: Octet)
    ensures ParseOctet(Decimal(n)) == Some(n) && '.' !in Decimal(n)
  {
    DecimalReads(n);
    DecimalLength(n);
  }

  lemma OctetIsCanonical(s: string)
    requires ParseOctet(s).Some?
    ensures s == Decimal(ParseOctet(s).value)
  {
    DecimalIsCanonical(s);
  }

  /** The reader accepts what the printer prints, and nothing else: canonical text is never rewritten. */
  lemma QuadReads(q: Quad)
    ensures ParseQuad(QuadString(q)) == Some(q)
  {
    var a, b, c, d := Decimal(q.a), Decimal(q.b), Decimal(q.c), Decimal(q.d);
    OctetReads(q.a);
    OctetReads(q.b);
    OctetReads(q.c);
    OctetReads(q.d);
    SplitFour(a, b, c, d);
  }

  lemma SplitFour(a: string, b: string, c: string, d: string)
    requires '.' !in a && '.' !in b && '.' !in c && '.' !in d
    ensures SplitOn(a + "." + b + "." + c + "." + d, '.') == [a, b, c, d]
  {
    SplitPlain(a, '.');
    SplitMore(a, [a], b);
    SplitMore(a + "." + b, [a, b], c);
    SplitMore(a + "." + b + "." + c, [a, b, c], d);
  }

  lemma SplitMore(head: string, parts: seq<string>, part: string)
    requires SplitOn(head, '.') == parts && '.' !in part
    ensures SplitOn(head + "." + part, '.') == parts + [part]
  {
    SplitPlain(part, '.');
    SplitAtSeparator(head, '.', part);
  }

  lemma JoinMore(parts: seq<string>, part: string)
    requires parts != []
    ensures Joined(parts + [part], '.') == Joined(parts, '.') + "." + part
  {
    assert (parts + [part])[..|parts|] == parts;
  }

  lemma JoinFour(a: string, b: string, c: string, d: string)
    ensures Joined([a, b, c, d], '.') == a + "." + b + "." + c + "." + d
  {
    JoinMore([a], b);
    JoinMore([a, b], c);
    JoinMore([a, b, c], d);
    assert [a] + [b] == [a, b] && [a, b] + [c] == [a, b, c] && [a, b, c] + [d] == [a, b, c, d];
  }

  lemma FourAreCanonical(a: string, b: string, c: string, d: string)
    requires ParseOctet(a).Some? && ParseOctet(b).Some? && ParseOctet(c).Some? && ParseOctet(d).Some?
    ensures QuadString(Quad(ParseOctet(a).value, ParseOctet(b).value, ParseOctet(c).value, ParseOctet(d).value))
         == a + "." + b + "." + c + "." + d
  {
    OctetIsCanonical(a);
    OctetIsCanonical(b);
    OctetIsCanonical(c);
    OctetIsCanonical(d);
  }

  lemma QuadIsCanonical(s: string)
    requires ParseQuad(s).Some?
    ensures QuadString(ParseQuad(s).value) == s
  {
    var parts := SplitOn(s, '.');
    var a, b, c, d := parts[0], parts[1], parts[2], parts[3];
    assert parts == [a, b, c, d];
    JoinUndoesSplit(s, '.');
    JoinFour(a, b, c, d);
    FourAreCanonical(a, b, c, d);
  }

  // ----- Extracting candidates -----

  /** What one scanned pair stands for, if it survives the filters. */
  function Accept(pair: Pair): Option<Entry> {
    var port, host := ParseU16(pair.1), ParseQuad(pair.0);
    if port.None? || port.value == 0 || host.None? || host.value == UNSPECIFIED then None
    else Some(Entry(host.value, port.value))
  }

  function Admitted(out: seq<Entry>, e: Option<Entry>): seq<Entry> {
    if e.None? || e.value in out then out else out + [e.value]
  }

  /** The accepted entries in first-seen order, each once. */
  function Candidates(pairs: seq<Pair>): seq<Entry> {
    if pairs == [] then []
    else Admitted(Candidates(pairs[..|pairs| - 1]), Accept(pairs[|pairs| - 1]))
  }

  /** `extract` with the default pattern. */
  method Extract(body: string) returns (out: seq<Entry>)
    ensures IsQuad(QuadEnds, body)
    ensures out == Candidates(GlobalPairs(QuadEnds, body, 0))
  {
    var pairs := FindAddrsGlobal(body);
    out := Filter(pairs);
  }

  lemma CandidatesStep(pairs: seq<Pair>, i: nat)
    requires i < |pairs|
    ensures Candidates(pairs[..i + 1]) == Admitted(Candidates(pairs[..i]), Accept(pairs[i]))
  {
    assert pairs[..i + 1][..i] == pairs[..i];
  }

  method Read(pair: Pair) returns (r: Option<Entry>)
    ensures r == Accept(pair)
  {
    var port := ParseU16(pair.1);
    if port.None? || port.value == 0 {
      return None;
    }
    var host := ParseQuad(pair.0);
    if host.None? {
      return None;
    }
    if host.value == UNSPECIFIED {
      return None;
    }
    return Some(Entry(host.value, port.value));
  }

  method Filter(pairs: seq<Pair>) returns (out: seq<Entry>)
    ensures out == Candidates(pairs)
  {
    var seen: set<Entry> := {};
    out := [];
    for i := 0 to |pairs|
      invariant out == Candidates(pairs[..i])
      invariant forall e :: e in seen <==> e in out
    {
      CandidatesStep(pairs, i);
      var candidate := Read(pairs[i]);
      if candidate.Some? && candidate.value !in seen {
        seen := seen + {candidate.value};
        out := out + [candidate.value];
      }
    }
    assert pairs[..|pairs|] == pairs;
  }

  ghost predicate Accepts(pair: Pair, e: Entry) {
    Accept(pair) == Some(e)
  }

  lemma OneMore<T>(all: seq<T>, init: seq<T>, holds: T -> bool)
    requires all != [] && init == all[..|all| - 1]
    ensures (exists i :: 0 <= i < |all| && holds(all[i]))
      <==> holds(all[|all| - 1]) || exists i :: 0 <= i < |init| && holds(init[i])
  {
    assert forall i :: 0 <= i < |init| ==> init[i] == all[i];
    assert all == init + [all[|all| - 1]];
  }

  lemma SomeAccepted(pairs: seq<Pair>, init: seq<Pair>, e: Entry)
    requires pairs != [] && init == pairs[..|pairs| - 1]
    ensures (exists i :: 0 <= i < |pairs| && Accepts(pairs[i], e))
      <==> Accepts(pairs[|pairs| - 1], e) || exists i :: 0 <= i < |init| && Accepts(init[i], e)
  {
    OneMore(pairs, init, pair => Accepts(pair, e));
  }

  /** Every candidate comes from a pair, every acceptable pair is there, none twice, in first-seen order. */
  lemma {:induction false} CandidatesAreFirstSeen(pairs: seq<Pair>)
    ensures forall e :: e in Candidates(pairs) <==> exists i :: 0 <= i < |pairs| && Accepts(pairs[i], e)
    ensures forall i, j :: 0 <= i < j < |Candidates(pairs)| ==> Candidates(pairs)[i] != Candidates(pairs)[j]
  {
    if pairs != [] {
      var n := |pairs| - 1;
      var init := pairs[..n];
      CandidatesAreFirstSeen(init);
      forall e ensures e in Candidates(pairs) <==> exists i :: 0 <= i < |pairs| && Accepts(pairs[i], e) {
        assert e in Candidates(pairs) <==> e in Candidates(init) || Accepts(pairs[n], e);
        SomeAccepted(pairs, init, e);
      }
    }
  }

  /** More text only ever adds candidates at the end. */
  lemma {:induction false} CandidatesGrow(pairs: seq<Pair>, more: seq<Pair>)
    ensures Candidates(pairs) <= Candidates(pairs + more)
  {
    if more == [] {
      assert pairs + more == pairs;
    } else {
      CandidatesGrow(pairs, more[..|more| - 1]);
      assert (pairs + more)[..|pairs + more| - 1] == pairs + more[..|more| - 1];
    }
  }

  /** No candidate is unroutable: not the unspecified address, not port 0. */
  lemma CandidatesAreUsable(pairs: seq<Pair>, e: Entry)
    requires e in Candidates(pairs)
    ensures e.host != UNSPECIFIED && 0 < e.port <= 65535
    ensures exists i :: 0 <= i < |pairs| && pairs[i].0 == QuadString(e.host) && ParseU16(pairs[i].1) == Some(e.port)
  {
    CandidatesAreFirstSeen(pairs);
    var i :| 0 <= i < |pairs| && Accepts(pairs[i], e);
    QuadIsCanonical(pairs[i].0);
  }

  // ----- Printing a list -----

  ghost predicate Printable(entries: seq<Entry>) {
    forall i :: 0 <= i < |entries| ==> 10 <= entries[i].port <= 65535
  }

  function Line(e: Entry): string {
    QuadString(e.host) + ":" + Decimal(e.port)
  }

  function Print(entries: seq<Entry>): string {
    if entries == [] then "" else Line(entries[0]) + "\n" + Print(entries[1..])
  }

  function PairOf(e: Entry): Pair {
    (QuadString(e.host), Decimal(e.port))
  }

  function Pairs(entries: seq<Entry>): seq<Pair> {
    seq(|entries|, i requires 0 <= i < |entries| => PairOf(entries[i]))
  }

  /** The text has `s` at position i. */
  predicate Has(t: string, i: nat, s: string) {
    i + |s| <= |t| && t[i..i + |s|] == s
  }

  // ----- What the patterns make of printed text -----

  /** The longest end comes first, and every other falls short of it, inside the digits. */
  ghost predicate Longest(t: string, ends: seq<nat>, e: nat) {
    ends != [] && ends[0] == e && forall x :: x in ends ==> x <= e && (x < e ==> DigitAt(t, x))
  }

  ghost predicate PrintedOctet(t: string, i: nat, e: nat) {
    && i < e <= i + 3 && e <= |t| && (forall k :: i <= k < e ==> IsDigit(t[k])) && !DigitAt(t, e)
    && (e == i + 3 ==> t[i] == '1' || (t[i] == '2' && (t[i + 1] < '5' || (t[i + 1] == '5' && t[i + 2] <= '5'))))
  }

  ghost predicate OctetText(s: string) {
    && 1 <= |s| <= 3 && (forall k :: 0 <= k < |s| ==> IsDigit(s[k]))
    && (|s| == 3 ==> s[0] == '1' || (s[0] == '2' && (s[1] < '5' || (s[1] == '5' && s[2] <= '5'))))
  }

  lemma DecimalIsOctetText(n: Octet)
    ensures OctetText(Decimal(n))
  {
    var s := Decimal(n);
    DecimalReads(n);
    DecimalLength(n);
    if n >= 100 {
      assert s == Decimal(n / 10) + [Digit(n % 10)] && Decimal(n / 10) == Decimal(n / 100) + [Digit(n / 10 % 10)];
      assert s == [Digit(n / 100), Digit(n / 10 % 10), Digit(n % 10)];
    }
  }

  lemma OctetIsPrinted(t: string, i: nat, s: string)
    requires OctetText(s) && Has(t, i, s) && !DigitAt(t, i + |s|)
    ensures PrintedOctet(t, i, i + |s|)
  {
    assert forall k :: 0 <= k < |s| ==> s[k] == t[i..i + |s|][k] == t[i + k];
    forall k | i <= k < i + |s| ensures IsDigit(t[k]) {
      assert t[k] == s[k - i];
    }
  }

  lemma OctetEndsLongest(t: string, i: nat, e: nat)
    requires PrintedOctet(t, i, e)
    ensures Longest(t, OctetEnds(t, i), e)
  {
    if e == i + 1 {
      assert OctetEnds(t, i) == [i + 1];
    } else if e == i + 2 {
      TwoDigits(t, i);
    } else {
      ThreeDigits(t, i);
    }
  }

  lemma TwoDigits(t: string, i: nat)
    requires PrintedOctet(t, i, i + 2)
    ensures Longest(t, OctetEnds(t, i), i + 2)
  {
    assert OneOrTwo(t, i) == [i + 2, i + 1] && OneOrTwo(t, i + 1) == [i + 2];
  }

  lemma ThreeDigits(t: string, i: nat)
    requires PrintedOctet(t, i, i + 3)
    ensures Longest(t, OctetEnds(t, i), i + 3)
  {
    assert OneOrTwo(t, i) == [i + 2, i + 1] && OneOrTwo(t, i + 1) == [i + 3, i + 2];
  }

  lemma OverLongest(octet: Pattern, t: string, ends: seq<nat>, e: nat, next: nat)
    requires Longest(t, ends, e) && DotAt(t, e) && Longest(t, octet(t, e + 1), next)
    ensures Longest(t, Over(octet, t, ends), next)
  {
    forall x | x in Over(octet, t, ends) ensures x in octet(t, e + 1) {
      OverWhich(octet, t, ends, x);
      var f :| f in ends && DotAt(t, f) && x in octet(t, f + 1);
      assert f == e;
    }
  }

  /** Where the dots of a printed address are. */
  datatype Cuts = Cuts(a: nat, b: nat, c: nat, end: nat)

  lemma HasBoth(t: string, i: nat, u: string, v: string)
    requires Has(t, i, u + v)
    ensures Has(t, i, u) && Has(t, i + |u|, v)
  {
    var s := t[i..i + |u + v|];
    assert s[..|u|] == t[i..i + |u|] && s[|u|..] == t[i + |u|..i + |u| + |v|];
    assert (u + v)[..|u|] == u && (u + v)[|u|..] == v;
  }

  lemma HasDot(t: string, i: nat, u: string, v: string)
    requires Has(t, i, u + "." + v)
    ensures Has(t, i, u) && DotAt(t, i + |u|) && Has(t, i + |u| + 1, v)
  {
    HasBoth(t, i, u + ".", v);
    HasBoth(t, i, u, ".");
    DotIs(t, i + |u|);
  }

  ghost predicate TwoOctets(t: string, i: nat, m: nat, e: nat) {
    PrintedOctet(t, i, m) && DotAt(t, m) && PrintedOctet(t, m + 1, e)
  }

  lemma TwoOctetsArePrinted(t: string, i: nat, u: string, v: string)
    requires OctetText(u) && OctetText(v) && Has(t, i, u + "." + v) && !DigitAt(t, i + |u| + 1 + |v|)
    ensures TwoOctets(t, i, i + |u|, i + |u| + 1 + |v|)
  {
    HasDot(t, i, u, v);
    OctetIsPrinted(t, i, u);
    OctetIsPrinted(t, i + |u| + 1, v);
  }

  lemma QuadInHalves(a: string, b: string, c: string, d: string)
    ensures a + "." + b + "." + c + "." + d == (a + "." + b) + "." + (c + "." + d)
  {
  }

  ghost predicate CutsOf(t: string, i: nat, k: Cuts) {
    TwoOctets(t, i, k.a, k.b) && DotAt(t, k.b) && TwoOctets(t, k.b + 1, k.c, k.end)
  }

  lemma HasParts(t: string, i: nat, a: string, b: string, c: string, d: string) returns (k: Cuts)
    requires OctetText(a) && OctetText(b) && OctetText(c) && OctetText(d)
    requires Has(t, i, (a + "." + b) + "." + (c + "." + d))
    requires !DigitAt(t, i + |a| + |b| + |c| + |d| + 3)
    ensures CutsOf(t, i, k) && k.end == i + |a| + |b| + |c| + |d| + 3
  {
    var ab, cd := a + "." + b, c + "." + d;
    HasDot(t, i, ab, cd);
    TwoOctetsArePrinted(t, i, a, b);
    TwoOctetsArePrinted(t, i + |ab| + 1, c, d);
    k := Cuts(i + |a|, i + |ab|, i + |ab| + 1 + |c|, i + |ab| + 1 + |cd|);
  }

  lemma HasCuts(t: string, i: nat, q: Quad) returns (k: Cuts)
    requires Has(t, i, QuadString(q)) && !DigitAt(t, i + |QuadString(q)|)
    ensures k.end == i + |QuadString(q)| && CutsOf(t, i, k)
  {
    var a, b, c, d := Decimal(q.a), Decimal(q.b), Decimal(q.c), Decimal(q.d);
    DecimalIsOctetText(q.a);
    DecimalIsOctetText(q.b);
    DecimalIsOctetText(q.c);
    DecimalIsOctetText(q.d);
    QuadInHalves(a, b, c, d);
    k := HasParts(t, i, a, b, c, d);
  }

  lemma DotIs(t: string, i: nat)
    requires Has(t, i, ".")
    ensures DotAt(t, i)
  {
    assert t[i..i + 1][0] == t[i];
  }

  ghost predicate ReadsOctets(octet: Pattern, t: string) {
    forall i, e: nat :: PrintedOctet(t, i, e) ==> Longest(t, octet(t, i), e)
  }

  lemma FourOctets(octet: Pattern, t: string, i: nat, q: Quad)
    requires ReadsOctets(octet, t) && Has(t, i, QuadString(q)) && !DigitAt(t, i + |QuadString(q)|)
    ensures Longest(t, Over(octet, t, Over(octet, t, Over(octet, t, octet(t, i)))), i + |QuadString(q)|)
  {
    var k := HasCuts(t, i, q);
    var one := octet(t, i);
    OverLongest(octet, t, one, k.a, k.b);
    OverLongest(octet, t, Over(octet, t, one), k.b, k.c);
    OverLongest(octet, t, Over(octet, t, Over(octet, t, one)), k.c, k.end);
  }

  /** The first match at a printed address is the whole address, unless more digits follow it. */
  lemma PrintedQuadMatches(t: string, i: nat, q: Quad)
    requires Has(t, i, QuadString(q)) && !DigitAt(t, i + |QuadString(q)|)
    ensures IpAt(QuadEnds, t, i) && QuadEnds(t, i)[0] == i + |QuadString(q)|
  {
    forall j: nat, e: nat | PrintedOctet(t, j, e) ensures Longest(t, OctetEnds(t, j), e) {
      OctetEndsLongest(t, j, e);
    }
    FourOctets(OctetEnds, t, i, q);
  }

  /** No address starts in a stretch without dots that ends before something that is neither digit nor dot. */
  lemma NoQuadBeforeBarrier(t: string, i: nat, stop: nat)
    requires i <= stop < |t| && !IsDigit(t[stop]) && t[stop] != '.' && forall k :: i <= k < stop ==> t[k] != '.'
    ensures !IpAt(QuadEnds, t, i)
  {
    OctetEndsShaped(t, i);
    forall e | e in OctetEnds(t, i) ensures !DotAt(t, e) {
      assert e <= stop;
    }
    NoQuadWithoutDot(t, i);
  }

  /** What the round trip needs of the address pattern. */
  ghost predicate ReadsPrinted(ip: Pattern, t: string) {
    && (forall i: nat, q :: Printed(t, i, q) ==> IpAt(ip, t, i) && ip(t, i)[0] == i + |QuadString(q)|)
    && (forall i: nat, stop: nat :: Barred(t, i, stop) ==> !IpAt(ip, t, i))
  }

  predicate Printed(t: string, i: nat, q: Quad) {
    Has(t, i, QuadString(q)) && !DigitAt(t, i + |QuadString(q)|)
  }

  predicate Barred(t: string, i: nat, stop: nat) {
    i <= stop < |t| && !IsDigit(t[stop]) && t[stop] != '.' && forall k :: i <= k < stop ==> t[k] != '.'
  }

  lemma QuadEndsReadsPrinted(t: string)
    ensures ReadsPrinted(QuadEnds, t)
  {
    forall i: nat, q | Printed(t, i, q) ensures IpAt(QuadEnds, t, i) && QuadEnds(t, i)[0] == i + |QuadString(q)| {
      PrintedQuadMatches(t, i, q);
    }
    forall i: nat, stop: nat | Barred(t, i, stop) ensures !IpAt(QuadEnds, t, i) {
      NoQuadBeforeBarrier(t, i, stop);
    }
  }

  // ----- The round trip -----

  /** Where the port of a printed line is, and where the next line starts. */
  /** A host, a colon, a port, a line end and the rest, each found where the lengths say. */
  lemma PartsOfLine(t: string, i: nat, host: string, port: string, rest: string)
    requires Has(t, i, host + ":" + port + "\n" + rest)
    ensures var colon := i + |host|; var newline := colon + 1 + |port|;
      && Has(t, i, host) && Has(t, colon, ":") && Has(t, colon + 1, port) && Has(t, newline, "\n")
      && Has(t, newline + 1, rest)
  {
    HasBoth(t, i, host + ":" + port + "\n", rest);
    HasBoth(t, i, host + ":" + port, "\n");
    HasBoth(t, i, host + ":", port);
    HasBoth(t, i, host, ":");
  }

  lemma HasChar(t: string, i: nat, c: char)
    requires Has(t, i, [c])
    ensures t[i] == c
  {
    assert t[i..i + 1][0] == t[i];
  }

  lemma HasPort(t: string, i: nat, n: nat)
    requires Has(t, i, Decimal(n)) && 10 <= n <= 65535
    ensures 2 <= |Decimal(n)| <= 5 && forall k :: i <= k < i + |Decimal(n)| ==> IsDigit(t[k])
  {
    var port := Decimal(n);
    DecimalReads(n);
    DecimalLength(n);
    forall k | i <= k < i + |port| ensures IsDigit(t[k]) {
      assert port[k - i] == t[i..i + |port|][k - i] == t[k];
    }
  }

  lemma LineParts(t: string, i: nat, e: Entry, rest: string) returns (colon: nat, newline: nat)
    requires Has(t, i, Line(e) + "\n" + rest) && 10 <= e.port <= 65535
    ensures colon == i + |QuadString(e.host)| && Printed(t, i, e.host)
    ensures t[i..colon] == QuadString(e.host)
    ensures colon + 3 <= newline <= colon + 6 && newline < |t| && t[colon] == ':' && t[newline] == '\n'
    ensures t[colon + 1..newline] == Decimal(e.port) && forall k :: colon < k < newline ==> IsDigit(t[k])
    ensures Has(t, newline + 1, rest) && newline + 1 + |rest| == i + |Line(e) + "\n" + rest|
  {
    var host, port := QuadString(e.host), Decimal(e.port);
    colon := i + |host|;
    newline := colon + 1 + |port|;
    PartsOfLine(t, i, host, port, rest);
    HasChar(t, colon, ':');
    HasChar(t, newline, '\n');
    HasPort(t, colon + 1, e.port);
  }

  lemma {:induction false} RunEndIs(t: string, i: nat, max: nat, stop: nat)
    requires i <= stop <= i + max && stop <= |t| && (forall k :: i <= k < stop ==> IsDigit(t[k])) && !DigitAt(t, stop)
    ensures RunEnd(t, i, max) == stop
    decreases max
  {
    if i < stop {
      RunEndIs(t, i + 1, max - 1, stop);
    }
  }

  /** After a printed address: its port is the nearest token, and no address starts before the next line. */
  lemma PortIsNext(ip: Pattern, t: string, colon: nat, newline: nat)
    requires ReadsPrinted(ip, t)
    requires colon + 3 <= newline <= colon + 6 && newline < |t| && t[colon] == ':' && t[newline] == '\n'
    requires forall k :: colon < k < newline ==> IsDigit(t[k])
    ensures PortFor(ip, t, colon) == Some(t[colon + 1..newline])
    ensures FindPort(t, colon) == Some(Span(colon + 1, newline))
    ensures forall k :: colon <= k <= newline ==> !IpAt(ip, t, k)
  {
    forall k | colon <= k <= newline ensures !IpAt(ip, t, k) {
      assert Barred(t, k, if k == colon then colon else newline);
    }
    RunEndIs(t, colon + 1, 5, newline);
    assert !PortAt(t, colon) && PortAt(t, colon + 1);
    assert !Starts(ip, t, Token, colon) && Starts(ip, t, Token, colon + 1);
    assert Next(ip, t, Token, colon) == Some(colon + 1);
    assert FindPort(t, colon + 1) == Some(Span(colon + 1, newline));
  }

  lemma {:induction false} FindIpSkips(ip: Pattern, t: string, from: nat, k: nat)
    requires from <= k <= |t| && forall q :: from <= q < k ==> !IpAt(ip, t, q)
    ensures FindIp(ip, t, from) == FindIp(ip, t, k)
    decreases k - from
  {
    if from < k {
      FindIpSkips(ip, t, from + 1, k);
    }
  }

  /** One printed entry at i, from any place before it where no address starts. */
  lemma GlobalReadsOne(ip: Pattern, t: string, from: nat, i: nat, colon: nat, newline: nat)
    requires IsQuad(ip, t) && ReadsPrinted(ip, t)
    requires from <= i < colon && IpAt(ip, t, i) && ip(t, i)[0] == colon
    requires forall q :: from <= q < i ==> !IpAt(ip, t, q)
    requires colon + 3 <= newline <= colon + 6 && newline < |t| && t[colon] == ':' && t[newline] == '\n'
    requires forall k :: colon < k < newline ==> IsDigit(t[k])
    ensures GlobalPairs(ip, t, from) == [(t[i..colon], t[colon + 1..newline])] + GlobalPairs(ip, t, colon)
    ensures forall k :: colon <= k <= newline ==> !IpAt(ip, t, k)
  {
    FindIpSkips(ip, t, from, i);
    assert FindIp(ip, t, i) == Some(Span(i, colon));
    PortIsNext(ip, t, colon, newline);
  }

  lemma GlobalReadsEntry(ip: Pattern, t: string, from: nat, i: nat, e: Entry, rest: string)
      returns (colon: nat, next: nat)
    requires IsQuad(ip, t) && ReadsPrinted(ip, t)
    requires Has(t, i, Line(e) + "\n" + rest) && 10 <= e.port <= 65535
    requires from <= i && forall q :: from <= q < i ==> !IpAt(ip, t, q)
    ensures GlobalPairs(ip, t, from) == [PairOf(e)] + GlobalPairs(ip, t, colon)
    ensures colon <= next && forall q :: colon <= q < next ==> !IpAt(ip, t, q)
    ensures Has(t, next, rest) && next + |rest| == i + |Line(e) + "\n" + rest|
  {
    var newline;
    colon, newline := LineParts(t, i, e, rest);
    GlobalReadsOne(ip, t, from, i, colon, newline);
    next := newline + 1;
  }

  lemma {:induction false} GlobalReadsFrom(ip: Pattern, t: string, from: nat, i: nat, entries: seq<Entry>)
    requires IsQuad(ip, t) && ReadsPrinted(ip, t) && Printable(entries)
    requires from <= i && Has(t, i, Print(entries)) && |t| == i + |Print(entries)|
    requires forall q :: from <= q < i ==> !IpAt(ip, t, q)
    ensures GlobalPairs(ip, t, from) == Pairs(entries)
    decreases |entries|
  {
    if entries == [] {
      FindIpSkips(ip, t, from, i);
    } else {
      var colon, next := GlobalReadsEntry(ip, t, from, i, entries[0], Print(entries[1..]));
      GlobalReadsFrom(ip, t, colon, next, entries[1..]);
    }
  }

  /** The whole-text scanner reads a printed list back, entry for entry. */
  lemma GlobalReadsPrinted(entries: seq<Entry>)
    requires Printable(entries)
    ensures IsQuad(QuadEnds, Print(entries))
    ensures GlobalPairs(QuadEnds, Print(entries), 0) == Pairs(entries)
  {
    var t := Print(entries);
    QuadEndsIsQuad(t);
    QuadEndsReadsPrinted(t);
    assert t[0..0 + |t|] == t;
    GlobalReadsFrom(QuadEnds, t, 0, 0, entries);
  }

  function LinesOf(entries: seq<Entry>): seq<string> {
    if entries == [] then [] else [Line(entries[0])] + LinesOf(entries[1..])
  }

  lemma LineIsPlain(e: Entry)
    ensures '\n' !in Line(e)
  {
    var a, b, c, d, port := Decimal(e.host.a), Decimal(e.host.b), Decimal(e.host.c), Decimal(e.host.d), Decimal(e.port);
    DecimalIsPlain(e.host.a);
    DecimalIsPlain(e.host.b);
    DecimalIsPlain(e.host.c);
    DecimalIsPlain(e.host.d);
    DecimalIsPlain(e.port);
  }

  lemma DecimalIsPlain(n: nat)
    ensures '\n' !in Decimal(n)
  {
    DecimalReads(n);
  }

  lemma {:induction false} PrintSplits(entries: seq<Entry>)
    ensures SplitOn(Print(entries), '\n') == LinesOf(entries) + [""]
  {
    if entries != [] {
      LineIsPlain(entries[0]);
      SplitPlain(Line(entries[0]), '\n');
      PrintSplits(entries[1..]);
      SplitAtSeparator(Line(entries[0]), '\n', Print(entries[1..]));
    }
  }

  lemma LonePort(t: string, colon: nat)
    requires colon + 3 <= |t| <= colon + 6 && t[colon] == ':' && forall k :: colon < k < |t| ==> IsDigit(t[k])
    ensures FindPort(t, colon) == Some(Span(colon + 1, |t|))
  {
    RunEndIs(t, colon + 1, 5, |t|);
    assert IsDigit(t[colon + 1]) && IsDigit(t[colon + 2]);
    assert !PortAt(t, colon) && PortAt(t, colon + 1);
  }

  lemma LonePair(t: string, colon: nat)
    requires colon < |t| && FindPort(t, colon) == Some(Span(colon + 1, |t|))
    ensures PairAt(t, Some(Span(0, colon))) == [(t[..colon], t[colon + 1..])]
  {
    assert t[0..colon] == t[..colon] && t[colon + 1..|t|] == t[colon + 1..];
  }

  /** One printed line on its own. */
  lemma LineReads(ip: Pattern, e: Entry)
    requires IsQuad(ip, Line(e)) && ReadsPrinted(ip, Line(e)) && 10 <= e.port <= 65535
    ensures LinePairs(ip, [Line(e)]) == [PairOf(e)]
  {
    var t, colon := Line(e), |QuadString(e.host)|;
    LineShape(e);
    LonePort(t, colon);
    LonePair(t, colon);
    assert FindIp(ip, t, 0) == Some(Span(0, colon));
    assert LinePairs(ip, [t]) == LinePairs(ip, [t][..0]) + LinePair(ip, t);
  }

  lemma LineShape(e: Entry)
    requires 10 <= e.port <= 65535
    ensures var t, colon := Line(e), |QuadString(e.host)|;
      && colon + 3 <= |t| <= colon + 6 && t[colon] == ':' && Printed(t, 0, e.host)
      && t[..colon] == QuadString(e.host) && t[colon + 1..] == Decimal(e.port)
      && forall k :: colon < k < |t| ==> IsDigit(t[k])
  {
    var t, host, port := Line(e), QuadString(e.host), Decimal(e.port);
    var colon := |host|;
    DecimalReads(e.port);
    DecimalLength(e.port);
    assert t[0..colon] == t[..colon] == host && t[colon + 1..] == port;
    forall k | colon < k < |t| ensures IsDigit(t[k]) {
      assert port[k - colon - 1] == t[k];
    }
  }

  lemma LinePairsPush(ip: Pattern, lines: seq<string>, line: string)
    requires forall l :: IsQuad(ip, l)
    ensures LinePairs(ip, lines + [line]) == LinePairs(ip, lines) + LinePair(ip, line)
  {
    assert (lines + [line])[..|lines|] == lines;
  }

  lemma {:induction false} LinePairsAppend(ip: Pattern, a: seq<string>, b: seq<string>)
    requires forall line :: IsQuad(ip, line)
    ensures LinePairs(ip, a + b) == LinePairs(ip, a) + LinePairs(ip, b)
  {
    if b == [] {
      assert a + b == a;
    } else {
      var init, last := b[..|b| - 1], b[|b| - 1];
      LinePairsAppend(ip, a, init);
      LinePairsPush(ip, a + init, last);
      LinePairsPush(ip, init, last);
      assert b == init + [last] && a + b == a + init + [last];
      var x, y, z := LinePairs(ip, a), LinePairs(ip, init), LinePair(ip, last);
      assert x + y + z == x + (y + z);
    }
  }

  lemma {:induction false} LinesRead(ip: Pattern, entries: seq<Entry>)
    requires (forall line :: IsQuad(ip, line)) && (forall line :: ReadsPrinted(ip, line)) && Printable(entries)
    ensures LinePairs(ip, LinesOf(entries)) == Pairs(entries)
  {
    if entries != [] {
      LinesRead(ip, entries[1..]);
      LineReads(ip, entries[0]);
      LinePairsAppend(ip, [Line(entries[0])], LinesOf(entries[1..]));
      assert Pairs(entries) == [PairOf(entries[0])] + Pairs(entries[1..]);
    }
  }

  /** So does the line scanner. */
  lemma LinesReadPrinted(entries: seq<Entry>)
    requires Printable(entries)
    ensures forall line :: IsQuad(QuadEnds, line)
    ensures LinePairs(QuadEnds, SplitOn(Print(entries), '\n')) == Pairs(entries)
  {
    forall line ensures IsQuad(QuadEnds, line) && ReadsPrinted(QuadEnds, line) {
      QuadEndsIsQuad(line);
      QuadEndsReadsPrinted(line);
    }
    EmptyLastLine(QuadEnds, entries);
  }

  lemma EmptyLastLine(ip: Pattern, entries: seq<Entry>)
    requires (forall line :: IsQuad(ip, line)) && (forall line :: ReadsPrinted(ip, line)) && Printable(entries)
    ensures LinePairs(ip, SplitOn(Print(entries), '\n')) == Pairs(entries)
  {
    PrintSplits(entries);
    LinePairsAppend(ip, LinesOf(entries), [""]);
    LinesRead(ip, entries);
    assert LinePairs(ip, [""]) == LinePairs(ip, [""][..0]) + LinePair(ip, "");
  }

  /** The list without the unspecified address, each entry where it is first seen. */
  function Kept(entries: seq<Entry>): seq<Entry> {
    if entries == [] then []
    else
      var init, last := Kept(entries[..|entries| - 1]), entries[|entries| - 1];
      if last.host == UNSPECIFIED || last in init then init else init + [last]
  }

  lemma {:induction false} CandidatesOfPrinted(entries: seq<Entry>)
    requires Printable(entries)
    ensures Candidates(Pairs(entries)) == Kept(entries)
  {
    if entries != [] {
      var n := |entries| - 1;
      CandidatesOfPrinted(entries[..n]);
      assert Pairs(entries)[..n] == Pairs(entries[..n]);
      QuadReads(entries[n].host);
      PortReads(entries[n].port);
    }
  }

  /** And a provider page that is such a list yields exactly its routable entries, each once. */
  lemma ExtractReadsPrinted(entries: seq<Entry>)
    requires Printable(entries)
    ensures IsQuad(QuadEnds, Print(entries))
    ensures Candidates(GlobalPairs(QuadEnds, Print(entries), 0)) == Kept(entries)
  {
    GlobalReadsPrinted(entries);
    CandidatesOfPrinted(entries);
  }
}
