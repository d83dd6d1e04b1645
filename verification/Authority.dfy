/**
 The authority of a `CONNECT` request: printed by `connect_request` (`src/negotiator.rs`), read by
 `split_host_port` (`src/server.rs`). Section 3.2.2 of RFC 3986 has the brackets.
 */
module Authority {
  import opened Wrappers
  import opened Numbers

  /** A caller's own brackets are taken off, once. */
  function Bare(host: string): string {
    if |host| >= 2 && host[0] == '[' && host[|host| - 1] == ']' then host[1..|host| - 1] else host
  }

  function ConnectAuthority(host: string, port: nat): string {
    var bare := Bare(host);
    if ':' in bare then "[" + bare + "]:" + Decimal(port) else bare + ":" + Decimal(port)
  }

  /** The position of the first `]:`. */
  function FirstBracketColon(s: string, from: nat): (r: Option<nat>)
    ensures r.Some? ==> r.value + 1 < |s|
    decreases |s| - from
  {
    if from + 1 >= |s| then None
    else if s[from] == ']' && s[from + 1] == ':' then Some(from)
    else FirstBracketColon(s, from + 1)
  }

  function LastColon(s: string): (r: Option<nat>)
    ensures r.Some? ==> r.value < |s|
  {
    if s == "" then None else if s[|s| - 1] == ':' then Some(|s| - 1) else LastColon(s[..|s| - 1])
  }

  function PortOr(s: string, default: nat): nat {
    var port := ParseU16(s);
    if port.Some? then port.value else default
  }

  /** The part of `split_host_port` for text without brackets. */
  function SplitPlainHost(s: string, default: nat): (string, nat) {
    match LastColon(s)
    case Some(k) => if k > 0 then (s[..k], PortOr(s[k + 1..], default)) else (s, default)
    case None => (s, default)
  }

  /** `split_host_port`. */
  function SplitHostPort(s: string, default: nat): (string, nat) {
    if s == "" || s[0] != '[' then SplitPlainHost(s, default)
    else
      var rest := s[1..];
      match FirstBracketColon(rest, 0)
      case Some(k) => (rest[..k], PortOr(rest[k + 2..], default))
      case None =>
        if rest != "" && rest[|rest| - 1] == ']' then (rest[..|rest| - 1], default) else SplitPlainHost(s, default)
  }

  // ----- What the searches find -----

  predicate BracketColonAt(s: string, k: nat) {
    k + 1 < |s| && s[k] == ']' && s[k + 1] == ':'
  }

  lemma {:induction false} FirstBracketColonIs(s: string, from: nat)
    ensures match FirstBracketColon(s, from)
      case Some(k) => from <= k && BracketColonAt(s, k) && forall j :: from <= j < k ==> !BracketColonAt(s, j)
      case None => forall j :: from <= j ==> !BracketColonAt(s, j)
    decreases |s| - from
  {
    if from + 1 < |s| && !BracketColonAt(s, from) {
      FirstBracketColonIs(s, from + 1);
    }
  }

  lemma {:induction false} LastColonIs(s: string, k: nat)
    requires k < |s| && s[k] == ':' && ':' !in s[k + 1..]
    ensures LastColon(s) == Some(k)
  {
    if k < |s| - 1 {
      assert s[|s| - 1] in s[k + 1..];
      assert s[..|s| - 1][k + 1..] == s[k + 1..][..|s| - k - 2];
      LastColonIs(s[..|s| - 1], k);
    }
  }

  lemma NoColon(n: nat)
    ensures ':' !in Decimal(n)
  {
    DecimalReads(n);
  }

  lemma OnlyColon(u: string, v: string, j: nat)
    requires ':' !in u && ':' !in v && j < |u + ":" + v|
    ensures (u + ":" + v)[j] == ':' <==> j == |u|
  {
    var s := u + ":" + v;
    assert s[j] == if j < |u| then u[j] else if j == |u| then ':' else v[j - |u| - 1];
  }

  lemma PlainReads(bare: string, port: nat, default: nat)
    requires port <= 65535
    ensures SplitPlainHost(bare + ":" + Decimal(port), default) == (bare, port) <==> bare != ""
  {
    var s := bare + ":" + Decimal(port);
    NoColon(port);
    PortReads(port);
    assert s[..|bare|] == bare && s[|bare| + 1..] == Decimal(port);
    LastColonIs(s, |bare|);
  }

  /** The text that is printed between brackets, or with none, can be told from what surrounds it. */
  predicate Readable(bare: string) {
    if ':' in bare then FirstBracketColon(bare, 0).None?
    else bare != "" && (bare[0] != '[' || bare[|bare| - 1] != ']' || |bare| == 1)
  }

  lemma BracketedReads(bare: string, port: nat, default: nat)
    requires port <= 65535
    ensures SplitHostPort("[" + bare + "]:" + Decimal(port), default) == (bare, port)
      <==> FirstBracketColon(bare, 0).None?
  {
    var s := "[" + bare + "]:" + Decimal(port);
    var rest := bare + "]:" + Decimal(port);
    assert s[1..] == rest;
    PortReads(port);
    FirstBracketColonIs(rest, 0);
    FirstBracketColonIs(bare, 0);
    assert BracketColonAt(rest, |bare|);
    assert rest[..|bare|] == bare && rest[|bare| + 2..] == Decimal(port);
    forall j: nat | j < |bare| ensures BracketColonAt(rest, j) <==> BracketColonAt(bare, j) {
      assert rest[j] == bare[j] && (j + 1 < |bare| ==> rest[j + 1] == bare[j + 1]);
    }
    var k := FirstBracketColon(rest, 0).value;
    if k < |bare| {
      assert |rest[..k]| < |bare|;
    }
  }

  lemma UnbracketedReads(bare: string, port: nat, default: nat)
    requires port <= 65535 && ':' !in bare
    ensures SplitHostPort(bare + ":" + Decimal(port), default) == (bare, port) <==> Readable(bare)
  {
    var s := bare + ":" + Decimal(port);
    PlainReads(bare, port, default);
    if bare != "" && bare[0] == '[' {
      OpenBracketReads(s, bare, port, default);
    }
  }

  lemma OpenBracketReads(s: string, bare: string, port: nat, default: nat)
    requires ':' !in bare && bare != "" && bare[0] == '[' && s == bare + ":" + Decimal(port)
    ensures if |bare| > 1 && bare[|bare| - 1] == ']' then |SplitHostPort(s, default).0| < |bare|
            else SplitHostPort(s, default) == SplitPlainHost(s, default)
  {
    var rest, tail, n := s[1..], bare[1..], |bare| - 1;
    assert rest == tail + ":" + Decimal(port);
    NoColon(port);
    DecimalReads(port);
    FirstBracketColonIs(rest, 0);
    assert rest[|rest| - 1] == Decimal(port)[|Decimal(port)| - 1];
    if n > 0 && bare[n] == ']' {
      assert BracketColonAt(rest, n - 1);
    } else if k :| FirstBracketColon(rest, 0) == Some(k) {
      OnlyColon(tail, Decimal(port), k + 1);
    }
  }

  /** Reading gives back the bare host and the port exactly when the bare host is readable. */
  lemma AuthorityReads(host: string, port: nat, default: nat)
    requires port <= 65535
    ensures SplitHostPort(ConnectAuthority(host, port), default) == (Bare(host), port) <==> Readable(Bare(host))
  {
    if ':' in Bare(host) {
      BracketedReads(Bare(host), port, default);
    } else {
      UnbracketedReads(Bare(host), port, default);
    }
  }

  /** Host names, IPv4 and IPv6 addresses are: anything non-empty without a closing bracket. */
  lemma OrdinaryHostsRead(host: string, port: nat, default: nat)
    requires port <= 65535 && Bare(host) != "" && ']' !in Bare(host)
    ensures SplitHostPort(ConnectAuthority(host, port), default) == (Bare(host), port)
  {
    AuthorityReads(host, port, default);
    FirstBracketColonIs(Bare(host), 0);
  }

  /** Brackets around the caller's host make no difference to what is sent, unless they are doubled. */
  lemma BracketsAreTransparent(host: string, port: nat)
    requires Bare(host) == host
    ensures ConnectAuthority("[" + host + "]", port) == ConnectAuthority(host, port)
  {
    assert ("[" + host + "]")[1..|host| + 1] == host;
  }

  /** A host with `]:` in it is cut there: `[a]:b]:80` reads as the host `a` and no port. */
  lemma BracketColonCuts(default: nat)
    ensures ConnectAuthority("a]:b", 80) == "[a]:b]:" + Decimal(80)
    ensures SplitHostPort(ConnectAuthority("a]:b", 80), default) == ("a", default)
  {
    var s := "[a]:b]:" + Decimal(80);
    assert "a]:b"[2] == ':';
    assert "[" + "a]:b" + "]:" + Decimal(80) == s;
    var rest := s[1..];
    assert rest == "a]:b]:" + Decimal(80);
    assert BracketColonAt(rest, 1) && !BracketColonAt(rest, 0);
    assert FirstBracketColon(rest, 0) == Some(1);
    assert rest[..1] == "a" && rest[3..] == "b]:" + Decimal(80);
    assert !IsDigit(rest[3..][0]);
  }
}
