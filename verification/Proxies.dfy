/**
 The proxy record (`src/proxy.rs`, with the vocabulary of `src/types.rs` and `src/error.rs`).

 A `Proxy` is plain data that is moved from owner to owner, so it is a value here; `&mut self`
 methods on it become functions from the record before to the record after. `f64` is `real`,
 and `round2` is exact rounding to two decimals, ties to even.
 */
module Proxies {
  import opened Reals
  import opened Wrappers

  datatype Proto = Http | Https | Socks4 | Socks5 | Connect80 | Connect25

  datatype Scheme = PlainHttp | Tunnelled

  datatype AnonLevel = Transparent | Anonymous | High

  datatype ProxyError =
    | ConnFailed
    | Timeout
    | Reset
    | EmptyRecv
    | BadStatus
    | BadResponse
    | ErrorOnStream
    | DisallowedStatus(code: nat)
    | Resolve

  datatype Ip = V4(bits: nat) | V6(bits: nat)

  /** `(host, port)`: what the pool, the pins and the re-checker identify a proxy by. */
  datatype Address = Address(host: Ip, port: nat)

  datatype Credentials = Credentials(username: seq<byte>, password: seq<byte>)

  const HTTP_PROTOS: set<Proto> := {Http, Connect80, Socks4, Socks5}
  const HTTPS_PROTOS: set<Proto> := {Https, Socks4, Socks5}

  // ----- Two-decimal rounding -----

  function RoundHalfEven(y: real): int {
    var f := y.Floor;
    var rest := y - f as real;
    if rest < 0.5 then f
    else if rest > 0.5 then f + 1
    else if f % 2 == 0 then f
    else f + 1
  }

  /** `round2`: correctly rounded to two decimals, ties to even. */
  function Round2(x: real): real {
    RoundHalfEven(x * 100.0) as real / 100.0
  }

  lemma RoundHalfEvenMonotone(x: real, y: real)
    requires x <= y
    ensures RoundHalfEven(x) <= RoundHalfEven(y)
  {
    assert x.Floor <= y.Floor;
  }

  /** Rounding keeps order and moves a value by at most half a hundredth. */
  lemma Round2Monotone(x: real, y: real)
    requires x <= y
    ensures Round2(x) <= Round2(y)
  {
    RoundHalfEvenMonotone(x * 100.0, y * 100.0);
  }

  lemma Round2OfUnit(x: real)
    requires 0.0 <= x <= 1.0
    ensures 0.0 <= Round2(x) <= 1.0
  {
    Round2Monotone(0.0, x);
    Round2Monotone(x, 1.0);
  }

  // ----- The record -----

  /**
   The error histogram is a counter, hence a multiset: the size of the multiset is the sum of
   the buckets.
   */
  datatype Proxy = Proxy(
    addr: Address,
    types: map<Proto, Option<AnonLevel>>,
    requests: nat,
    errors: multiset<ProxyError>,
    runtimes: seq<real>,
    ewmaSuccess: Option<real>,
    country: Option<string>,
    auth: Option<Credentials>)
  {
    predicate IsWorking() {
      types.Keys != {}
    }

    predicate Serves(scheme: Scheme) {
      match scheme
      case PlainHttp => types.Keys * HTTP_PROTOS != {}
      case Tunnelled => types.Keys * HTTPS_PROTOS != {}
    }

    /** `record_attempt`: one more request; the error bucket if it failed; the runtime unless it timed out. */
    function Recorded(runtime: Option<real>, err: Option<ProxyError>): Proxy {
      var p := this.(requests := requests + 1);
      var p := if err.Some? then p.(errors := p.errors + multiset{err.value}) else p;
      if runtime.Some? && err != Some(Timeout) then p.(runtimes := p.runtimes + [runtime.value]) else p
    }

    function ErrorRate(): real {
      if requests == 0 then 0.0 else Round2(|errors| as real / requests as real)
    }

    function AvgRespTime(): real {
      if runtimes == [] then 0.0 else Round2(Sum(runtimes) / |runtimes| as real)
    }

    /** The first half of `priority`: the worse of the live error rate and what the stored score implies. */
    function ErrorKey(): real {
      match ewmaSuccess
      case None => ErrorRate()
      case Some(e) => if ErrorRate() >= 1.0 - e then ErrorRate() else 1.0 - e
    }
  }

  function Sum(xs: seq<real>): real {
    if xs == [] then 0.0 else xs[0] + Sum(xs[1..])
  }

  /** `Proxy::new`: nothing confirmed, nothing attempted. */
  function Fresh(addr: Address): Proxy {
    Proxy(addr, map[], 0, multiset{}, [], None, None, None)
  }

  /** `Proxy::restored`: the aggregates of a stored row, the errors under one bucket. */
  function Restored(addr: Address, types: map<Proto, Option<AnonLevel>>, requests: nat, errorsTotal: nat,
                    avgRespTime: real): Proxy
  {
    Proxy(addr, types, requests, multiset{}[BadResponse := errorsTotal],
          if avgRespTime > 0.0 then [avgRespTime] else [], None, None, None)
  }

  // ----- Accounting -----

  /** One attempt as every caller in the repository reports it: a runtime or an error, never both. */
  datatype Attempt = Worked(runtime: real) | Failed(error: ProxyError)

  function Report(p: Proxy, a: Attempt): Proxy {
    match a
    case Worked(rt) => p.Recorded(Some(rt), None)
    case Failed(e) => p.Recorded(None, Some(e))
  }

  function ReportAll(p: Proxy, run: seq<Attempt>): Proxy {
    if run == [] then p else Report(ReportAll(p, run[..|run| - 1]), run[|run| - 1])
  }

  ghost predicate Balanced(p: Proxy) {
    |p.errors| + |p.runtimes| == p.requests
  }

  lemma ReportKeepsBalance(p: Proxy, a: Attempt)
    requires Balanced(p)
    ensures Balanced(Report(p, a))
    ensures Report(p, a).requests == p.requests + 1
    ensures Report(p, a).addr == p.addr && Report(p, a).types == p.types
  {
  }

  /** Every request is one error or one success, whatever the run; so the rates are proportions. */
  lemma {:induction false} AccountingBalances(addr: Address, run: seq<Attempt>)
    ensures var p := ReportAll(Fresh(addr), run);
      && p.requests == |run|
      && |p.errors| + |p.runtimes| == p.requests
      && 0.0 <= p.ErrorRate() <= 1.0
  {
    var p := ReportAll(Fresh(addr), run);
    if run != [] {
      AccountingBalances(addr, run[..|run| - 1]);
      ReportKeepsBalance(ReportAll(Fresh(addr), run[..|run| - 1]), run[|run| - 1]);
    }
    BalancedRateIsProportion(p);
  }

  lemma BalancedRateIsProportion(p: Proxy)
    requires |p.errors| <= p.requests
    ensures 0.0 <= p.ErrorRate() <= 1.0
  {
    if p.requests > 0 {
      var e, n := |p.errors| as real, p.requests as real;
      Proportion(e, n);
      Round2OfUnit(e / n);
    }
  }

  /** A restored row answers with the stored error rate and latency. */
  lemma RestoredIsFaithful(addr: Address, types: map<Proto, Option<AnonLevel>>, requests: nat,
                           errorsTotal: nat, avg: real)
    requires avg >= 0.0
    ensures var p := Restored(addr, types, requests, errorsTotal, avg);
      && |p.errors| == errorsTotal
      && p.AvgRespTime() == Round2(avg)
      && (forall s :: p.Serves(s) <==> Fresh(addr).(types := types).Serves(s))
  {
    var p := Restored(addr, types, requests, errorsTotal, avg);
    assert multiset{}[BadResponse := errorsTotal][BadResponse] == errorsTotal;
    if avg > 0.0 {
      assert Sum([avg]) == avg + Sum([avg][1..]) == avg;
      assert avg / 1.0 == avg;
    } else {
      assert Round2(0.0) == 0.0;
    }
  }

  // ----- Which protocol to speak -----

  /** `tunnel_proto` (`src/negotiator.rs`): a protocol that yields an opaque byte tunnel. */
  function TunnelProto(p: Proxy): Option<Proto> {
    if Socks5 in p.types then Some(Socks5)
    else if Socks4 in p.types then Some(Socks4)
    else if Connect80 in p.types then Some(Connect80)
    else if Https in p.types then Some(Connect80)
    else None
  }

  /** `connect_proto` (`src/connector.rs`). */
  function ConnectProto(p: Proxy, scheme: Scheme): Option<Proto> {
    if TunnelProto(p).Some? then TunnelProto(p)
    else if scheme == PlainHttp && Http in p.types then Some(Http)
    else None
  }

  /** `choose_proto` (`src/server.rs`). */
  function ChooseProto(p: Proxy, scheme: Scheme): Proto {
    match scheme
    case Tunnelled => if TunnelProto(p).Some? then TunnelProto(p).value else Connect80
    case PlainHttp =>
      if Http in p.types then Http
      else if Connect80 in p.types then Connect80
      else if Socks5 in p.types then Socks5
      else if Socks4 in p.types then Socks4
      else Http
  }

  /**
   A proxy leased for a scheme always has a protocol for it: the connector's "return it untouched"
   branch is dead for leased proxies, and neither picker ever terminates the client's TLS.
   */
  lemma LeasedProxyHasProtocol(p: Proxy, scheme: Scheme)
    requires p.Serves(scheme)
    ensures ConnectProto(p, scheme).Some?
    ensures ConnectProto(p, scheme).value !in {Https, Connect25}
    ensures ChooseProto(p, scheme) !in {Https, Connect25}
    ensures ChooseProto(p, scheme) in p.types || (ChooseProto(p, scheme) == Connect80 && Https in p.types)
    ensures scheme == Tunnelled ==> ChooseProto(p, scheme) == ConnectProto(p, scheme).value != Http
  {
    var protos := if scheme == PlainHttp then HTTP_PROTOS else HTTPS_PROTOS;
    var t :| t in p.types.Keys * protos;
  }
}
