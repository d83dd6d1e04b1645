/**
 The address scanners (`src/parse.rs`), over ASCII text.

 A backtracking matcher tries the ends of a pattern in a fixed order; here that order is a list.
 `QuadEnds` is the list for the IPv4 pattern, and what the `regex` crate reports is its first entry.
 The look-ahead pattern that the two-pass scanner replaces takes the first entry after which its
 look-ahead succeeds, which need not be the same one.
 */
module Scanner {
  import opened Wrappers
  import opened Numbers

  datatype Span = Span(start: nat, end: nat)

  type Pair = (string, string)

  /** A pattern: where its matches that start at a position may end, in the order in which they are tried. */
  type Pattern = (string, nat) -> seq<nat>

  predicate DigitAt(t: string, i: nat) {
    i < |t| && IsDigit(t[i])
  }

  predicate DotAt(t: string, i: nat) {
    i < |t| && t[i] == '.'
  }

  predicate InRange(t: string, i: nat, lo: char, hi: char) {
    i < |t| && lo <= t[i] <= hi
  }

  // ----- The IPv4 pattern -----

  /** `\d\d?`, longest first. */
  function OneOrTwo(t: string, i: nat): seq<nat> {
    if !DigitAt(t, i) then [] else if DigitAt(t, i + 1) then [i + 2, i + 1] else [i + 1]
  }

  /** `25[0-5]|2[0-4]\d|[01]?\d\d?`, in the order of the alternatives. */
  function OctetEnds(t: string, i: nat): seq<nat> {
    (if InRange(t, i, '2', '2') && InRange(t, i + 1, '5', '5') && InRange(t, i + 2, '0', '5') then [i + 3] else [])
    + (if InRange(t, i, '2', '2') && InRange(t, i + 1, '0', '4') && DigitAt(t, i + 2) then [i + 3] else [])
    + (if InRange(t, i, '0', '1') then OneOrTwo(t, i + 1) else [])
    + OneOrTwo(t, i)
  }

  /** From each end in turn, over a dot and through one more octet. */
  function Over(octet: Pattern, t: string, ends: seq<nat>): seq<nat> {
    if ends == [] then []
    else (if DotAt(t, ends[0]) then octet(t, ends[0] + 1) else []) + Over(octet, t, ends[1..])
  }

  /** Four octets with dots between them. */
  function QuadEnds(t: string, i: nat): seq<nat> {
    Over(OctetEnds, t, Over(OctetEnds, t, Over(OctetEnds, t, OctetEnds(t, i))))
  }

  predicate IpAt(ip: Pattern, t: string, i: nat) {
    ip(t, i) != []
  }

  /** `IPV4_RE.find_at`. */
  function FindIp(ip: Pattern, t: string, from: nat): Option<Span>
    decreases |t| - from
  {
    if from >= |t| then None
    else if IpAt(ip, t, from) then Some(Span(from, ip(t, from)[0]))
    else FindIp(ip, t, from + 1)
  }

  // ----- The port pattern -----

  predicate PortAt(t: string, i: nat) {
    DigitAt(t, i) && DigitAt(t, i + 1)
  }

  /** How far a run of at most `max` digits reaches. */
  function RunEnd(t: string, i: nat, max: nat): (e: nat)
    ensures i <= e <= i + max
    ensures i <= |t| ==> e <= |t|
    decreases max
  {
    if max > 0 && DigitAt(t, i) then RunEnd(t, i + 1, max - 1) else i
  }

  /** `PORT_RE.find_at`: `\d{2,5}`. */
  function FindPort(t: string, from: nat): Option<Span>
    decreases |t| - from
  {
    if from >= |t| then None
    else if PortAt(t, from) then Some(Span(from, RunEnd(t, from, 5)))
    else FindPort(t, from + 1)
  }

  // ----- What the ends of a match look like -----

  function Dots(t: string, a: nat, b: nat): nat
    requires a <= b <= |t|
  {
    if a == b then 0 else Dots(t, a, b - 1) + if t[b - 1] == '.' then 1 else 0
  }

  lemma {:induction false} DotsSplit(t: string, a: nat, m: nat, b: nat)
    requires a <= m <= b <= |t|
    ensures Dots(t, a, b) == Dots(t, a, m) + Dots(t, m, b)
    decreases b
  {
    if m < b {
      DotsSplit(t, a, m, b - 1);
    }
  }

  /** An octet is one to three digits, and a single digit is always one of its matches. */
  ghost predicate OctetShaped(t: string, i: nat, ends: seq<nat>) {
    && (DigitAt(t, i) ==> i + 1 in ends)
    && (forall e :: e in ends ==> i < e <= i + 3 && e <= |t| && forall k :: i <= k < e ==> IsDigit(t[k]))
  }

  ghost predicate IsOctet(octet: Pattern, t: string) {
    forall i :: OctetShaped(t, i, octet(t, i))
  }

  lemma OctetEndsShaped(t: string, i: nat)
    ensures OctetShaped(t, i, OctetEnds(t, i))
  {
    var a, b := OneOrTwo(t, i), OneOrTwo(t, i + 1);
    if DigitAt(t, i) {
      assert a[|a| - 1] == i + 1;
      assert OctetEnds(t, i)[|OctetEnds(t, i)| - 1] == i + 1;
    }
  }

  lemma {:induction false} DigitsHaveNoDots(t: string, a: nat, b: nat)
    requires a <= b <= |t| && forall k :: a <= k < b ==> t[k] != '.'
    ensures Dots(t, a, b) == 0
  {
    if a < b {
      DigitsHaveNoDots(t, a, b - 1);
    }
  }

  /** Where an end comes from: the end it was reached through. */
  lemma {:induction false} OverWhich(octet: Pattern, t: string, ends: seq<nat>, e: nat)
    ensures e in Over(octet, t, ends) <==> exists f :: f in ends && DotAt(t, f) && e in octet(t, f + 1)
  {
    if ends != [] {
      var rest := ends[1..];
      OverWhich(octet, t, rest, e);
      assert forall f :: f in ends <==> f == ends[0] || f in rest;
      assert e in Over(octet, t, ends)
        <==> (DotAt(t, ends[0]) && e in octet(t, ends[0] + 1)) || e in Over(octet, t, rest);
    }
  }

  /** The start of the last octet of a match that starts at `lo` and ends at `e`. */
  function LastOctet(t: string, lo: nat, e: nat): (o: nat)
    requires lo <= e <= |t|
    ensures lo <= o <= e
    decreases e
  {
    if e == lo || t[e - 1] == '.' then e else LastOctet(t, lo, e - 1)
  }

  lemma {:induction false} LastOctetIs(t: string, lo: nat, o: nat, e: nat)
    requires lo <= o <= e <= |t| && (o == lo || t[o - 1] == '.') && forall k :: o <= k < e ==> IsDigit(t[k])
    ensures LastOctet(t, lo, e) == o
    decreases e
  {
    if o < e {
      LastOctetIs(t, lo, o, e - 1);
    }
  }

  /** What is known of an end after `n` dots, the last octet of which may also have been one digit. */
  ghost predicate Shaped(t: string, i: nat, ends: seq<nat>, n: nat) {
    forall e {:trigger EndShaped(t, i, ends, n, e)} :: e in ends ==> EndShaped(t, i, ends, n, e)
  }

  ghost predicate EndShaped(t: string, i: nat, ends: seq<nat>, n: nat, e: nat) {
    && i < e <= |t| && IsDigit(t[e - 1])
    && var o := LastOctet(t, i, e);
       o < e && (n > 0 ==> i < o && t[o - 1] == '.') && Dots(t, i, o) == n && o + 1 in ends
  }

  lemma OctetIsShaped(t: string, i: nat, ends: seq<nat>)
    requires OctetShaped(t, i, ends)
    ensures Shaped(t, i, ends, 0)
  {
    forall e | e in ends ensures EndShaped(t, i, ends, 0, e) {
      LastOctetIs(t, i, i, e);
    }
  }

  lemma OverIsShaped(octet: Pattern, t: string, i: nat, ends: seq<nat>, n: nat)
    requires IsOctet(octet, t) && Shaped(t, i, ends, n)
    ensures Shaped(t, i, Over(octet, t, ends), n + 1)
  {
    forall e | e in Over(octet, t, ends) ensures EndShaped(t, i, Over(octet, t, ends), n + 1, e) {
      OverEndIsShaped(octet, t, i, ends, n, e);
    }
  }

  lemma OverEndIsShaped(octet: Pattern, t: string, i: nat, ends: seq<nat>, n: nat, e: nat)
    requires IsOctet(octet, t) && Shaped(t, i, ends, n) && e in Over(octet, t, ends)
    ensures EndShaped(t, i, Over(octet, t, ends), n + 1, e)
  {
    OverWhich(octet, t, ends, e);
    var f :| f in ends && DotAt(t, f) && e in octet(t, f + 1);
    assert EndShaped(t, i, ends, n, f) && OctetShaped(t, f + 1, octet(t, f + 1));
    NextOctetIsShaped(t, i, ends, n, f, octet(t, f + 1), e);
    OverWhich(octet, t, ends, f + 2);
  }

  lemma NextOctetIsShaped(t: string, i: nat, ends: seq<nat>, n: nat, f: nat, next: seq<nat>, e: nat)
    requires EndShaped(t, i, ends, n, f) && DotAt(t, f) && OctetShaped(t, f + 1, next) && e in next
    ensures i < f + 1 < e <= |t| && IsDigit(t[e - 1])
    ensures LastOctet(t, i, e) == f + 1 && Dots(t, i, f + 1) == n + 1 && f + 2 in next
  {
    LastOctetIs(t, i, f + 1, e);
    var o := LastOctet(t, i, f);
    LastOctetIsDigits(t, i, f);
    DigitsHaveNoDots(t, o, f);
    DotsSplit(t, i, o, f);
  }

  /** A match has three dots and ends in a digit; its last octet could also have been one digit. */
  ghost predicate IsQuad(ip: Pattern, t: string) {
    forall i :: Shaped(t, i, ip(t, i), 3)
  }

  lemma OctetEndsIsOctet(t: string)
    ensures IsOctet(OctetEnds, t)
  {
    forall i ensures OctetShaped(t, i, OctetEnds(t, i)) {
      OctetEndsShaped(t, i);
    }
  }

  lemma ThriceOver(octet: Pattern, t: string, i: nat)
    requires IsOctet(octet, t)
    ensures Shaped(t, i, Over(octet, t, Over(octet, t, Over(octet, t, octet(t, i)))), 3)
  {
    var one := octet(t, i);
    assert OctetShaped(t, i, one);
    OctetIsShaped(t, i, one);
    OverIsShaped(octet, t, i, one, 0);
    OverIsShaped(octet, t, i, Over(octet, t, one), 1);
    OverIsShaped(octet, t, i, Over(octet, t, Over(octet, t, one)), 2);
  }

  lemma QuadEndsIsQuad(t: string)
    ensures IsQuad(QuadEnds, t)
  {
    OctetEndsIsOctet(t);
    forall i ensures Shaped(t, i, QuadEnds(t, i), 3) {
      ThriceOver(OctetEnds, t, i);
    }
  }

  lemma {:induction false} LastOctetIsDigits(t: string, lo: nat, e: nat)
    requires lo <= e <= |t|
    ensures var o := LastOctet(t, lo, e); forall k :: o <= k < e ==> t[k] != '.'
    decreases e
  {
    if e != lo && t[e - 1] != '.' {
      LastOctetIsDigits(t, lo, e - 1);
    }
  }

  /** No IPv4 that starts at i or later ends before the last octet of the one that starts at i has begun. */
  lemma LaterEndsAreLater(ip: Pattern, t: string, i: nat, e: nat, i': nat, e': nat)
    requires IsQuad(ip, t)
    requires i <= i' && e in ip(t, i) && e' in ip(t, i')
    ensures i < e <= |t| && e' > LastOctet(t, i, e)
  {
    assert EndShaped(t, i, ip(t, i), 3, e) && EndShaped(t, i', ip(t, i'), 3, e');
    var o, o' := LastOctet(t, i, e), LastOctet(t, i', e');
    if e' < o {
      DotsSplit(t, i, i', o - 1);
      DotsSplit(t, i', o', o - 1);
      DotsSplit(t, i, o - 1, o);
    }
  }

  // ----- Tokens ahead -----

  /** What a look-ahead asks for: a port or another address, or a port only. */
  datatype Ahead = Token | PortOnly

  predicate Starts(ip: Pattern, t: string, ahead: Ahead, p: nat) {
    PortAt(t, p) || (ahead == Token && IpAt(ip, t, p))
  }

  /** The least position from `from` on where what is asked for starts. */
  function Next(ip: Pattern, t: string, ahead: Ahead, from: nat): Option<nat>
    decreases |t| - from
  {
    if from >= |t| then None else if Starts(ip, t, ahead, from) then Some(from) else Next(ip, t, ahead, from + 1)
  }

  predicate Follows(ip: Pattern, t: string, ahead: Ahead, from: nat) {
    Next(ip, t, ahead, from).Some?
  }

  lemma {:induction false} NextIsLeast(ip: Pattern, t: string, ahead: Ahead, from: nat)
    ensures match Next(ip, t, ahead, from)
      case Some(p) =>
        from <= p < |t| && Starts(ip, t, ahead, p) && forall q :: from <= q < p ==> !Starts(ip, t, ahead, q)
      case None => forall q :: from <= q < |t| ==> !Starts(ip, t, ahead, q)
    decreases |t| - from
  {
    if from < |t| && !Starts(ip, t, ahead, from) {
      NextIsLeast(ip, t, ahead, from + 1);
    }
  }

  lemma FollowsEarlier(ip: Pattern, t: string, ahead: Ahead, from: nat, later: nat)
    requires from <= later && Follows(ip, t, ahead, later)
    ensures Follows(ip, t, ahead, from)
  {
    NextIsLeast(ip, t, ahead, from);
    NextIsLeast(ip, t, ahead, later);
  }

  lemma {:induction false} FindIpIsLeftmost(ip: Pattern, t: string, from: nat)
    requires IsQuad(ip, t)
    ensures match FindIp(ip, t, from)
      case Some(s) =>
        && from <= s.start < s.end <= |t| && IpAt(ip, t, s.start) && s.end == ip(t, s.start)[0]
        && forall q :: from <= q < s.start ==> !IpAt(ip, t, q)
      case None => forall q :: from <= q < |t| ==> !IpAt(ip, t, q)
    decreases |t| - from
  {
    if from < |t| {
      if IpAt(ip, t, from) {
        assert EndShaped(t, from, ip(t, from), 3, ip(t, from)[0]);
      } else {
        FindIpIsLeftmost(ip, t, from + 1);
      }
    }
  }

  lemma {:induction false} FindPortIsLeftmost(t: string, from: nat)
    ensures match FindPort(t, from)
      case Some(s) =>
        && from <= s.start < s.end <= |t| && PortAt(t, s.start) && s.end == RunEnd(t, s.start, 5)
        && forall q :: from <= q < s.start ==> !PortAt(t, q)
      case None => forall q :: from <= q < |t| ==> !PortAt(t, q)
    decreases |t| - from
  {
    if from < |t| && !PortAt(t, from) {
      FindPortIsLeftmost(t, from + 1);
    }
  }

  // ----- The whole-text scanner -----

  /** What is reported for an address that ends at `e`: nothing, no port, or the digits of its port. */
  function PortFor(ip: Pattern, t: string, e: nat): Option<string> {
    NextIsLeast(ip, t, Token, e);
    match Next(ip, t, Token, e)
    case None => None
    case Some(p) => if IpAt(ip, t, p) then Some("") else Some(t[p..RunEnd(t, p, 5)])
  }

  function Report(ip: Pattern, t: string, s: Span): seq<Pair>
    requires s.start <= s.end <= |t|
  {
    match PortFor(ip, t, s.end)
    case None => []
    case Some(port) => [(t[s.start..s.end], port)]
  }

  /**
   The declared result: for each leftmost non-overlapping IPv4, the nearest token after it -- nothing
   when there is none, an empty port when it is another address, its digits when it is only a port.
   */
  function GlobalPairs(ip: Pattern, t: string, from: nat): seq<Pair>
    requires IsQuad(ip, t)
    decreases |t| - from
  {
    FindIpIsLeftmost(ip, t, from);
    match FindIp(ip, t, from)
    case None => []
    case Some(s) => Report(ip, t, s) + GlobalPairs(ip, t, s.end)
  }

  /** The port arm of `find_addrs_global`. */
  function PairPort(t: string, port: Option<Span>, ip: Option<Span>): Option<string>
    requires port.Some? ==> port.value.start <= port.value.end <= |t|
  {
    if port.Some? && (ip.None? || port.value.start < ip.value.start) then Some(t[port.value.start..port.value.end])
    else if ip.Some? then Some("")
    else None
  }

  /** The comparison of the two searches finds the nearest token, and a tie goes to the address. */
  lemma TwoSearchesFindNearest(ip: Pattern, t: string, e: nat)
    requires IsQuad(ip, t)
    ensures FindPort(t, e).Some? ==> FindPort(t, e).value.start <= FindPort(t, e).value.end <= |t|
    ensures PairPort(t, FindPort(t, e), FindIp(ip, t, e)) == PortFor(ip, t, e)
  {
    FindPortIsLeftmost(t, e);
    FindIpIsLeftmost(ip, t, e);
    NextIsLeast(ip, t, Token, e);
    var port, next := FindPort(t, e), FindIp(ip, t, e);
    assert port.Some? ==> Starts(ip, t, Token, port.value.start);
    assert next.Some? ==> Starts(ip, t, Token, next.value.start);
    if p :| Next(ip, t, Token, e) == Some(p) {
      assert if IpAt(ip, t, p) then next.Some? && next.value.start == p else port.Some? && port.value.start == p;
    }
  }

  /** `find_addrs_global`. */
  method FindAddrsGlobal(t: string) returns (out: seq<Pair>)
    ensures IsQuad(QuadEnds, t) && out == GlobalPairs(QuadEnds, t, 0)
  {
    QuadEndsIsQuad(t);
    out := ScanText(QuadEnds, t);
  }

  /** The pair of the address at `s`, if it has one; the two searches are those of the source. */
  method PairOf(ip: Pattern, t: string, s: Span) returns (pairs: seq<Pair>)
    requires IsQuad(ip, t) && s.start <= s.end <= |t|
    ensures pairs == Report(ip, t, s)
  {
    TwoSearchesFindNearest(ip, t, s.end);
    var port := PairPort(t, FindPort(t, s.end), FindIp(ip, t, s.end));
    pairs := if port.Some? then [(t[s.start..s.end], port.value)] else [];
  }

  method ScanText(ip: Pattern, t: string) returns (out: seq<Pair>)
    requires IsQuad(ip, t)
    ensures out == GlobalPairs(ip, t, 0)
  {
    out := [];
    var searchFrom := 0;
    while true
      invariant searchFrom <= |t|
      invariant out + GlobalPairs(ip, t, searchFrom) == GlobalPairs(ip, t, 0)
      decreases |t| - searchFrom
    {
      FindIpIsLeftmost(ip, t, searchFrom);
      var found := FindIp(ip, t, searchFrom);
      if found.None? {
        return;
      }
      var s := found.value;
      var pairs := PairOf(ip, t, s);
      Regroup(out, pairs, GlobalPairs(ip, t, s.end));
      out := out + pairs;
      searchFrom := s.end;
    }
  }

  lemma Regroup(a: seq<Pair>, b: seq<Pair>, c: seq<Pair>)
    ensures a + (b + c) == (a + b) + c
  {
  }

  // ----- The look-ahead pattern -----

  /** The first end, in the matcher's order, after which the look-ahead succeeds. */
  function FirstFollowed(ip: Pattern, t: string, ends: seq<nat>, ahead: Ahead): Option<nat> {
    if ends == [] then None
    else if Follows(ip, t, ahead, ends[0]) then Some(ends[0])
    else FirstFollowed(ip, t, ends[1..], ahead)
  }

  /** The leftmost position from which the address and the look-ahead both match. */
  function FindFollowed(ip: Pattern, t: string, from: nat, ahead: Ahead): Option<Span>
    decreases |t| - from
  {
    if from >= |t| then None
    else
      match FirstFollowed(ip, t, ip(t, from), ahead)
      case Some(e) => Some(Span(from, e))
      case None => FindFollowed(ip, t, from + 1, ahead)
  }

  lemma {:induction false} FirstFollowedIs(ip: Pattern, t: string, ends: seq<nat>, ahead: Ahead)
    ensures match FirstFollowed(ip, t, ends, ahead)
      case Some(e) => e in ends && Follows(ip, t, ahead, e)
      case None => forall e :: e in ends ==> !Follows(ip, t, ahead, e)
    ensures ends != [] && Follows(ip, t, ahead, ends[0]) ==> FirstFollowed(ip, t, ends, ahead) == Some(ends[0])
  {
    if ends != [] && !Follows(ip, t, ahead, ends[0]) {
      FirstFollowedIs(ip, t, ends[1..], ahead);
    }
  }

  lemma {:induction false} FindFollowedIs(ip: Pattern, t: string, from: nat, ahead: Ahead)
    requires IsQuad(ip, t)
    ensures match FindFollowed(ip, t, from, ahead)
      case Some(s) =>
        && from <= s.start < s.end <= |t| && s.end in ip(t, s.start) && Follows(ip, t, ahead, s.end)
        && Some(s.end) == FirstFollowed(ip, t, ip(t, s.start), ahead)
        && forall q, e :: from <= q < s.start && e in ip(t, q) ==> !Follows(ip, t, ahead, e)
      case None => forall q, e :: from <= q < |t| && e in ip(t, q) ==> !Follows(ip, t, ahead, e)
    decreases |t| - from
  {
    if from < |t| {
      FirstFollowedIs(ip, t, ip(t, from), ahead);
      match FirstFollowed(ip, t, ip(t, from), ahead)
      case Some(e) =>
        assert EndShaped(t, from, ip(t, from), 3, e);
      case None => FindFollowedIs(ip, t, from + 1, ahead);
    }
  }

  /** Whether a match survives if the last octet is cut down to its first digit. */
  predicate FollowsCut(ip: Pattern, t: string, s: Span, ahead: Ahead)
    requires s.start <= s.end <= |t|
  {
    Follows(ip, t, ahead, LastOctet(t, s.start, s.end) + 1)
  }

  /**
   What backtracking does: where the look-ahead succeeds after the leftmost address nothing; where it
   fails there, it finds a match all the same exactly when the last octet cut short has one.
   */
  lemma FirstAddressDecides(ip: Pattern, t: string, from: nat, s: Span, ahead: Ahead)
    requires IsQuad(ip, t)
    requires FindIp(ip, t, from) == Some(s)
    ensures s.start < s.end <= |t|
    ensures Follows(ip, t, ahead, s.end) ==> FindFollowed(ip, t, from, ahead) == Some(s)
    ensures !Follows(ip, t, ahead, s.end) ==> (FindFollowed(ip, t, from, ahead).Some? <==> FollowsCut(ip, t, s, ahead))
  {
    FindIpIsLeftmost(ip, t, from);
    FindFollowedIs(ip, t, from, ahead);
    var ends := ip(t, s.start);
    assert EndShaped(t, s.start, ends, 3, s.end);
    FirstFollowedIs(ip, t, ends, ahead);
    var r, o := FindFollowed(ip, t, from, ahead), LastOctet(t, s.start, s.end);
    assert o + 1 in ends && (r.Some? ==> IpAt(ip, t, r.value.start));
    if Follows(ip, t, ahead, s.end) {
      assert s.end in ends;
    } else if r.Some? {
      var m := r.value;
      LaterEndsAreLater(ip, t, s.start, s.end, m.start, m.end);
      FollowsEarlier(ip, t, ahead, o + 1, m.end);
    }
  }

  /** `findall` with the look-ahead pattern. */
  function LookaheadPairs(ip: Pattern, t: string, from: nat): seq<Pair>
    requires IsQuad(ip, t)
    decreases |t| - from
  {
    FindFollowedIs(ip, t, from, Token);
    match FindFollowed(ip, t, from, Token)
    case None => []
    case Some(s) => Report(ip, t, s) + LookaheadPairs(ip, t, s.end)
  }

  /** The last address that the scanner finds. */
  function LastIp(ip: Pattern, t: string, from: nat): Option<Span>
    requires IsQuad(ip, t)
    decreases |t| - from
  {
    FindIpIsLeftmost(ip, t, from);
    match FindIp(ip, t, from)
    case None => None
    case Some(s) => if FindIp(ip, t, s.end).None? then Some(s) else LastIp(ip, t, s.end)
  }

  lemma {:induction false} LastIpInText(ip: Pattern, t: string, from: nat)
    requires IsQuad(ip, t)
    ensures LastIp(ip, t, from).Some? ==> LastIp(ip, t, from).value.start < LastIp(ip, t, from).value.end <= |t|
    decreases |t| - from
  {
    FindIpIsLeftmost(ip, t, from);
    if FindIp(ip, t, from).Some? {
      LastIpInText(ip, t, FindIp(ip, t, from).value.end);
    }
  }

  /** After the last address there is a token, or there would be none even if its last octet were cut short. */
  predicate LastIpIsClear(ip: Pattern, t: string, from: nat)
    requires IsQuad(ip, t)
  {
    LastIpInText(ip, t, from);
    match LastIp(ip, t, from)
    case None => true
    case Some(s) => FollowsCut(ip, t, s, Token) ==> Follows(ip, t, Token, s.end)
  }

  lemma ReportFollowed(ip: Pattern, t: string, s: Span)
    requires s.start <= s.end <= |t|
    ensures |Report(ip, t, s)| == if Follows(ip, t, Token, s.end) then 1 else 0
  {
    NextIsLeast(ip, t, Token, s.end);
  }

  lemma {:induction false} GlobalEqualsLookaheadFrom(ip: Pattern, t: string, from: nat)
    requires IsQuad(ip, t)
    ensures GlobalPairs(ip, t, from) == LookaheadPairs(ip, t, from) <==> LastIpIsClear(ip, t, from)
    decreases |t| - from
  {
    FindIpIsLeftmost(ip, t, from);
    FindFollowedIs(ip, t, from, Token);
    var m := FindFollowed(ip, t, from, Token);
    assert m.Some? ==> IpAt(ip, t, m.value.start);
    match FindIp(ip, t, from)
    case None =>
    case Some(s) =>
      FirstAddressDecides(ip, t, from, s, Token);
      ReportFollowed(ip, t, s);
      FindIpIsLeftmost(ip, t, s.end);
      if Follows(ip, t, Token, s.end) {
        GlobalEqualsLookaheadFrom(ip, t, s.end);
        assert GlobalPairs(ip, t, from) == Report(ip, t, s) + GlobalPairs(ip, t, s.end);
        assert LookaheadPairs(ip, t, from) == Report(ip, t, s) + LookaheadPairs(ip, t, s.end);
        SameTail(Report(ip, t, s), GlobalPairs(ip, t, s.end), LookaheadPairs(ip, t, s.end));
      } else {
        NextIsLeast(ip, t, Token, s.end);
        if FindIp(ip, t, s.end).Some? {
          assert Starts(ip, t, Token, FindIp(ip, t, s.end).value.start);
        }
        if FindFollowed(ip, t, from, Token).Some? {
          ReportFollowed(ip, t, FindFollowed(ip, t, from, Token).value);
        }
      }
  }

  lemma SameTail(head: seq<Pair>, a: seq<Pair>, b: seq<Pair>)
    ensures head + a == head + b <==> a == b
  {
    assert (head + a)[|head|..] == a && (head + b)[|head|..] == b;
  }

  /**
   The scanner is not the look-ahead pattern on every text: it is exactly where backtracking into the
   last address cannot bring a token into view.
   */
  lemma GlobalEqualsLookahead(t: string)
    ensures IsQuad(QuadEnds, t)
    ensures GlobalPairs(QuadEnds, t, 0) == LookaheadPairs(QuadEnds, t, 0) <==> LastIpIsClear(QuadEnds, t, 0)
  {
    QuadEndsIsQuad(t);
    GlobalEqualsLookaheadFrom(QuadEnds, t, 0);
  }

  // ----- The line scanner -----

  /** The pair of a line: what the first address is followed by, or what the pattern's match is followed by. */
  function PairAt(t: string, s: Option<Span>): seq<Pair>
    requires s.Some? ==> s.value.start <= s.value.end <= |t|
  {
    if s.None? then []
    else
      FindPortIsLeftmost(t, s.value.end);
      match FindPort(t, s.value.end)
      case None => []
      case Some(port) => [(t[s.value.start..s.value.end], t[port.start..port.end])]
  }

  /** At most one pair comes of a line. */
  function LinePair(ip: Pattern, line: string): seq<Pair>
    requires IsQuad(ip, line)
  {
    FindIpIsLeftmost(ip, line, 0);
    PairAt(line, FindIp(ip, line, 0))
  }

  function LinePairs(ip: Pattern, lines: seq<string>): seq<Pair>
    requires forall i :: 0 <= i < |lines| ==> IsQuad(ip, lines[i])
  {
    if lines == [] then []
    else
      LinePairs(ip, lines[..|lines| - 1]) + LinePair(ip, lines[|lines| - 1])
  }

  /** `find_addrs_line`. */
  method FindAddrsLine(t: string) returns (out: seq<Pair>)
    ensures (forall line :: IsQuad(QuadEnds, line)) && out == LinePairs(QuadEnds, SplitOn(t, '\n'))
  {
    forall line ensures IsQuad(QuadEnds, line) {
      QuadEndsIsQuad(line);
    }
    out := ScanLines(QuadEnds, SplitOn(t, '\n'));
  }

  method ScanLines(ip: Pattern, lines: seq<string>) returns (out: seq<Pair>)
    requires forall i :: 0 <= i < |lines| ==> IsQuad(ip, lines[i])
    ensures out == LinePairs(ip, lines)
  {
    out := [];
    for i := 0 to |lines|
      invariant out == LinePairs(ip, lines[..i])
    {
      var line := lines[i];
      assert lines[..i + 1][..i] == lines[..i];
      FindIpIsLeftmost(ip, line, 0);
      var found := FindIp(ip, line, 0);
      if found.Some? {
        FindPortIsLeftmost(line, found.value.end);
        var port := FindPort(line, found.value.end);
        if port.Some? {
          out := out + [(line[found.value.start..found.value.end], line[port.value.start..port.value.end])];
        }
      }
    }
    assert lines[..|lines|] == lines;
  }

  /** `findall` with the line pattern: a lazy gap, the address, a lazy gap, the port, the rest of the line. */
  function PatternPairs(ip: Pattern, lines: seq<string>): seq<Pair>
    requires forall i :: 0 <= i < |lines| ==> IsQuad(ip, lines[i])
  {
    if lines == [] then []
    else
      var init, last := lines[..|lines| - 1], lines[|lines| - 1];
      FindFollowedIs(ip, last, 0, PortOnly);
      PatternPairs(ip, init) + PairAt(last, FindFollowed(ip, last, 0, PortOnly))
  }

  /** The line's first address has a port after it, or would have none even with its last octet cut short. */
  predicate LineIsClear(ip: Pattern, line: string)
    requires IsQuad(ip, line)
  {
    FindIpIsLeftmost(ip, line, 0);
    match FindIp(ip, line, 0)
    case None => true
    case Some(s) => FollowsCut(ip, line, s, PortOnly) ==> Follows(ip, line, PortOnly, s.end)
  }

  lemma PortFollows(ip: Pattern, t: string, from: nat)
    ensures FindPort(t, from).Some? <==> Follows(ip, t, PortOnly, from)
  {
    FindPortIsLeftmost(t, from);
    NextIsLeast(ip, t, PortOnly, from);
    assert FindPort(t, from).Some? ==> Starts(ip, t, PortOnly, FindPort(t, from).value.start);
  }

  lemma OneLine(ip: Pattern, line: string)
    requires IsQuad(ip, line)
    ensures var s, m := FindIp(ip, line, 0), FindFollowed(ip, line, 0, PortOnly);
      && (s.Some? ==> s.value.start < s.value.end <= |line|) && (m.Some? ==> m.value.start < m.value.end <= |line|)
      && |PairAt(line, s)| <= |PairAt(line, m)|
      && (PairAt(line, s) == PairAt(line, m) <==> LineIsClear(ip, line))
  {
    FindIpIsLeftmost(ip, line, 0);
    FindFollowedIs(ip, line, 0, PortOnly);
    var s, m := FindIp(ip, line, 0), FindFollowed(ip, line, 0, PortOnly);
    assert m.Some? ==> IpAt(ip, line, m.value.start);
    if s.Some? {
      FirstAddressDecides(ip, line, 0, s.value, PortOnly);
      PortFollows(ip, line, s.value.end);
      if m.Some? {
        PortFollows(ip, line, m.value.end);
      }
    }
  }

  /** Again exactly where backtracking cannot bring a port into view, now on every line. */
  lemma {:induction false} LineEqualsPattern(ip: Pattern, lines: seq<string>)
    requires forall i :: 0 <= i < |lines| ==> IsQuad(ip, lines[i])
    ensures |LinePairs(ip, lines)| <= |PatternPairs(ip, lines)|
    ensures LinePairs(ip, lines) == PatternPairs(ip, lines)
      <==> forall i :: 0 <= i < |lines| ==> LineIsClear(ip, lines[i])
  {
    if lines != [] {
      var n := |lines| - 1;
      var init, last := lines[..n], lines[n];
      LineEqualsPattern(ip, init);
      OneLine(ip, last);
      var a, b := LinePairs(ip, init), PatternPairs(ip, init);
      var x, y := PairAt(last, FindIp(ip, last, 0)), PairAt(last, FindFollowed(ip, last, 0, PortOnly));
      if a + x == b + y {
        assert |a| == |b| && |x| == |y|;
        assert a == (a + x)[..|a|] && b == (b + y)[..|b|] && x == (a + x)[|a|..] && y == (b + y)[|b|..];
      }
      assert (forall i :: 0 <= i < |lines| ==> LineIsClear(ip, lines[i]))
        <==> (forall i :: 0 <= i < |init| ==> LineIsClear(ip, init[i])) && LineIsClear(ip, last) by {
        assert forall i :: 0 <= i < |init| ==> init[i] == lines[i];
      }
    }
  }

  /** The line scanner and the line pattern on a text. */
  lemma LinesEqualPattern(t: string)
    ensures var lines := SplitOn(t, '\n');
      && (forall i :: 0 <= i < |lines| ==> IsQuad(QuadEnds, lines[i]))
      && (LinePairs(QuadEnds, lines) == PatternPairs(QuadEnds, lines)
          <==> forall i :: 0 <= i < |lines| ==> LineIsClear(QuadEnds, lines[i]))
  {
    var lines := SplitOn(t, '\n');
    forall i | 0 <= i < |lines| ensures IsQuad(QuadEnds, lines[i]) {
      QuadEndsIsQuad(lines[i]);
    }
    LineEqualsPattern(QuadEnds, lines);
  }

  // ----- A text on which the two differ -----

  predicate TooLong(t: string) {
    |t| == 9 && t[0] == '1' && t[2] == '2' && t[4] == '3' && t[6] == '4' && t[7] == '5' && t[8] == '6'
    && t[1] == t[3] == t[5] == '.'
  }

  lemma OverOne(t: string, f: nat)
    requires DotAt(t, f)
    ensures Over(OctetEnds, t, [f]) == OctetEnds(t, f + 1)
  {
    assert [f][1..] == [];
  }

  lemma NoQuadWithoutDot(t: string, i: nat)
    requires forall e :: e in OctetEnds(t, i) ==> !DotAt(t, e)
    ensures !IpAt(QuadEnds, t, i)
  {
    NoOver(t, OctetEnds(t, i));
  }

  lemma {:induction false} NoOver(t: string, ends: seq<nat>)
    requires forall e :: e in ends ==> !DotAt(t, e)
    ensures Over(OctetEnds, t, ends) == []
  {
    if ends != [] {
      NoOver(t, ends[1..]);
    }
  }

  lemma SingleDigit(t: string, i: nat)
    requires DigitAt(t, i) && !DigitAt(t, i + 1)
    ensures OctetEnds(t, i) == [i + 1]
  {
  }

  lemma TooLongQuad(t: string)
    requires TooLong(t)
    ensures QuadEnds(t, 0) == [8, 7] && !IpAt(QuadEnds, t, 7) && !IpAt(QuadEnds, t, 8)
  {
    SingleDigit(t, 0);
    SingleDigit(t, 2);
    SingleDigit(t, 4);
    OverOne(t, 1);
    OverOne(t, 3);
    OverOne(t, 5);
    TooLongTail(t);
  }

  lemma TooLongTail(t: string)
    requires TooLong(t)
    ensures OctetEnds(t, 6) == [8, 7] && !IpAt(QuadEnds, t, 7) && !IpAt(QuadEnds, t, 8)
  {
    SingleDigit(t, 8);
    assert OctetEnds(t, 7) == [9, 8] && OctetEnds(t, 6) == [8, 7];
    NoQuadWithoutDot(t, 7);
    NoQuadWithoutDot(t, 8);
  }

  lemma Differ(ip: Pattern, t: string)
    requires TooLong(t) && IsQuad(ip, t) && ip(t, 0) == [8, 7] && !IpAt(ip, t, 7) && !IpAt(ip, t, 8)
    ensures GlobalPairs(ip, t, 0) == [] && LookaheadPairs(ip, t, 0) == [(t[..7], t[7..])]
  {
    assert !Follows(ip, t, Token, 9) && !Starts(ip, t, Token, 8) && !Follows(ip, t, Token, 8);
    assert Next(ip, t, Token, 7) == Some(7) && RunEnd(t, 9, 3) == 9 && RunEnd(t, 8, 4) == 9 && RunEnd(t, 7, 5) == 9;
    assert FirstFollowed(ip, t, [8, 7][1..], Token) == Some(7);
    assert t[7..9] == t[7..] && t[0..7] == t[..7];
    assert FindFollowed(ip, t, 0, Token) == Some(Span(0, 7)) && PortFor(ip, t, 7) == Some(t[7..]);
    assert FindFollowed(ip, t, 9, Token).None? && FindFollowed(ip, t, 8, Token).None?;
    assert FindFollowed(ip, t, 7, Token).None? && LookaheadPairs(ip, t, 7) == [];
    assert FindIp(ip, t, 9).None? && GlobalPairs(ip, t, 8) == [];
  }

  /** The last octet of the pattern's match gives up a digit so that the rest can be a port. */
  lemma TheyDiffer(t: string)
    requires t == "1.2.3.456"
    ensures IsQuad(QuadEnds, t) && !LastIpIsClear(QuadEnds, t, 0)
    ensures GlobalPairs(QuadEnds, t, 0) == []
    ensures LookaheadPairs(QuadEnds, t, 0) == [(t[..7], t[7..])]
  {
    TooLongQuad(t);
    QuadEndsIsQuad(t);
    Differ(QuadEnds, t);
    GlobalEqualsLookahead(t);
  }
}
