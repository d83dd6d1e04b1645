/**
 Serving one client request (`handle_client` and `relay` in `src/server.rs`).

 Sockets are replaced by scripts: what a connect, a negotiation, an upstream stream or a write to the
 client does is chosen by the environment, attempt by attempt. A write that fails may have delivered any
 part of its bytes. What the client has received since its handshake is a log, and so is what upstreams
 have been sent: a negotiation, the rewritten head, and what the splice carries of the client's further
 bytes. Each entry is marked with its kind and the attempt it belongs to.
 */
module Relay {
  import opened Wrappers
  import opened Proxies
  import BareLf
  import opened Heads
  import opened Responses
  import opened Base64
  import opened Streams
  import opened Pools

  datatype Frontend = HttpForward | HttpConnect | SocksConnect

  datatype ClientRequest = ClientRequest(
    scheme: Scheme,
    frontend: Frontend,
    raw: bytes,
    proxyAuth: Option<bytes>)

  /** `None`: the write goes through; `Some(n)`: it fails after n bytes at most. */
  type WriteFault = Option<nat>

  datatype Upstream = Upstream(
    connectError: Option<ProxyError>,
    // What the negotiation gets to write to the proxy; it knows the target and the proxy's credentials only.
    greeting: bytes,
    negotiateError: Option<ProxyError>,
    requestWrite: WriteFault,
    answer: Stream,
    clientWrite: WriteFault,
    // What the client writes after its first head: a body, the tunnel, later requests.
    more: bytes,
    // How much of the rest of the answer the splice hands to the client and how much of the client's bytes
    // to the upstream, and whether it ends well.
    spliced: nat,
    pumped: nat,
    spliceOk: bool)

  /** What the environment decides in one round of the retry loop. */
  datatype Round = Round(
    now: nat -> int,
    draw: nat -> nat,
    live: nat -> bool,
    others: seq<Others>,
    upstream: Upstream,
    benchTime: int)

  /** Who wrote it: an attempt's negotiation, the attempt itself, its splice, or the server on its own. */
  datatype Origin = Greeting(n: nat) | Attempt(n: nat) | Spliced(n: nat) | Local

  datatype Delivery = Delivery(origin: Origin, data: bytes)

  datatype RelayOutcome =
    | Ok
    | RetryableFailure(error: ProxyError)
    | ClientCommitted(error: ProxyError)
    | ClientGone

  /** One direction of a connection: what has been written to the other end. */
  class Wire {
    var log: seq<Delivery>

    constructor ()
      ensures log == []
    {
      log := [];
    }

    method Send(origin: Origin, data: bytes, fault: WriteFault) returns (ok: bool)
      modifies this
      ensures ok <==> fault.None?
      ensures exists n: nat :: n <= |data| && (ok ==> n == |data|) && log == old(log) + [Delivery(origin, data[..n])]
    {
      var n := if fault.None? then |data| else Min(fault.value, |data|);
      log := log + [Delivery(origin, data[..n])];
      ok := fault.None?;
    }
  }

  // ----- Fixed texts -----

  const BASIC: bytes := [66, 97, 115, 105, 99, 32]
  const SOCKS_SUCCESS: bytes := [5, 0, 0, 1, 0, 0, 0, 0, 0, 0]
  const SOCKS_FAILURE: bytes := [5, 1, 0, 1, 0, 0, 0, 0, 0, 0]
  /** `HTTP/1.1 407 Proxy Authentication Required`, the challenge `Basic realm="proxybroker"`, a blank line. */
  const AUTH_REQUIRED: bytes :=
    [72, 84, 84, 80, 47, 49, 46, 49, 32, 52, 48, 55, 32, 80, 114, 111, 120, 121, 32, 65, 117, 116, 104,
     101, 110, 116, 105, 99, 97, 116, 105, 111, 110, 32, 82, 101, 113, 117, 105, 114, 101, 100, 13, 10, 80,
     114, 111, 120, 121, 45, 65, 117, 116, 104, 101, 110, 116, 105, 99, 97, 116, 101, 58, 32, 66, 97, 115,
     105, 99, 32, 114, 101, 97, 108, 109, 61, 34, 112, 114, 111, 120, 121, 98, 114, 111, 107, 101, 114, 34,
     13, 10, 13, 10]

  /** `HTTP/1.1 502 Bad Gateway` and a blank line. */
  const BAD_GATEWAY: bytes :=
    [72, 84, 84, 80, 47, 49, 46, 49, 32, 53, 48, 50, 32, 66, 97, 100, 32, 71, 97, 116, 101, 119, 97, 121,
     13, 10, 13, 10]

  function TerminalFailure(frontend: Frontend): bytes {
    if frontend == SocksConnect then SOCKS_FAILURE else BAD_GATEWAY
  }

  /** The value the upstream is to read, if it has credentials. */
  function OwnValue(auth: Option<Credentials>): Option<bytes> {
    if auth.Some? then Some(BasicValue(auth.value)) else None
  }

  /** The head that goes upstream for a forwarded request. */
  function Forwarded(raw: bytes, auth: Option<Credentials>): bytes {
    Rewritten(raw, PROXY_AUTHORIZATION, OwnValue(auth))
  }

  function BasicValue(c: Credentials): bytes {
    BASIC + Encode(c.username + [COLON] + c.password)
  }

  // ----- One attempt -----

  /** What stands before the rest of the answer in the client's copy of it, and where that rest begins. */
  ghost predicate Opens(req: ClientRequest, up: Upstream, allowed: Option<seq<nat>>, info: bytes, ack: bytes,
                        head: bytes, k: nat)
  {
    && k <= |up.answer.data|
    && match req.frontend
       case HttpConnect => head == ack && k == 0
       case SocksConnect => head == SOCKS_SUCCESS && k == 0
       case HttpForward =>
         if RequestHasBody(req.raw) then head == [] && k == 0
         else
           && IsStatusLine(up.answer.data, k) && k <= up.answer.inTime
           && head == InjectHeader(up.answer.data[..k], info)
           && (allowed.Some? ==> ParseHttpStatus(up.answer.data[..k]) in allowed.value)
  }

  /**
   The client has read part of one reply: an acknowledgement and the tunnel, or the answer with the
   information line in its place -- and, where the gate applies, only after the status line passed it.
   */
  ghost predicate ReadsReply(got: bytes, whole: bool, req: ClientRequest, up: Upstream, allowed: Option<seq<nat>>,
                             info: bytes, ack: bytes)
  {
    exists head, k: nat :: Opens(req, up, allowed, info, ack, head, k)
      && got <= head + up.answer.data[k..] && (whole ==> got == head + up.answer.data[k..])
  }

  ghost predicate AllFrom(entries: seq<Delivery>, origin: Origin) {
    forall i :: 0 <= i < |entries| ==> entries[i].origin == origin
  }

  ghost function Bytes(entries: seq<Delivery>): bytes {
    if entries == [] then [] else Bytes(entries[..|entries| - 1]) + entries[|entries| - 1].data
  }

  lemma BytesPush(entries: seq<Delivery>, d: Delivery)
    ensures Bytes(entries + [d]) == Bytes(entries) + d.data
  {
    assert (entries + [d])[..|entries|] == entries;
  }

  lemma PrefixAfter(a: bytes, b: bytes, c: bytes)
    requires b <= c
    ensures a + b <= a + c
  {
  }

  /** One more write of an attempt, after what it has `sent` already. */
  method SendMore(client: Wire, origin: Origin, data: bytes, fault: WriteFault,
                  ghost before: seq<Delivery>, ghost sent: seq<Delivery>)
    returns (ok: bool, ghost more: seq<Delivery>)
    requires client.log == before + sent && AllFrom(sent, origin)
    modifies client
    ensures client.log == before + more && AllFrom(more, origin)
    ensures ok <==> fault.None?
    ensures Bytes(more) <= Bytes(sent) + data && (ok ==> Bytes(more) == Bytes(sent) + data)
  {
    ok := client.Send(origin, data, fault);
    ghost var d := client.log[|client.log| - 1];
    more := sent + [d];
    assert before + more == before + sent + [d];
    BytesPush(sent, d);
    PrefixAfter(Bytes(sent), d.data, data);
  }

  /** A write that may have been cut: one entry, all of the data if the write went through. */
  ghost predicate IsWritten(out: seq<Delivery>, origin: Origin, data: bytes, whole: bool) {
    exists n: nat :: n <= |data| && (whole ==> n == |data|) && out == [Delivery(origin, data[..n])]
  }

  /** The splice took place. */
  predicate Splices(outcome: RelayOutcome) {
    outcome == Ok || outcome.ClientCommitted?
  }

  /** What the splice carries upstream: the client's further bytes, all of them if it ends well. */
  ghost predicate IsPumped(out: seq<Delivery>, attempt: nat, up: Upstream, outcome: RelayOutcome) {
    if Splices(outcome) then IsWritten(out, Spliced(attempt), up.more, outcome == Ok) else out == []
  }

  /** One write to the upstream. */
  method Write(upstream: Wire, origin: Origin, data: bytes, fault: WriteFault)
    returns (ok: bool, ghost out: seq<Delivery>)
    modifies upstream
    ensures upstream.log == old(upstream.log) + out
    ensures IsWritten(out, origin, data, ok) && (ok <==> fault.None?)
  {
    ok := upstream.Send(origin, data, fault);
    out := [upstream.log[|upstream.log| - 1]];
  }

  /** From the commit point on: the head, then the splice, both ways. */
  method Commit(client: Wire, upstream: Wire, attempt: nat, head: bytes, rest: bytes, up: Upstream)
    returns (outcome: RelayOutcome, ghost sent: seq<Delivery>, ghost out: seq<Delivery>)
    requires client != upstream
    modifies client, upstream
    ensures outcome in {Ok, ClientCommitted(ErrorOnStream), ClientGone}
    ensures client.log == old(client.log) + sent && AllFrom(sent, Attempt(attempt))
    ensures Bytes(sent) <= head + rest && (outcome == Ok ==> Bytes(sent) == head + rest)
    ensures upstream.log == old(upstream.log) + out && IsPumped(out, attempt, up, outcome)
  {
    sent, out := [], [];
    if head != [] {
      var ok;
      ok, sent := SendMore(client, Attempt(attempt), head, up.clientWrite, client.log, sent);
      if !ok {
        return ClientGone, sent, out;
      }
    }
    assert Bytes(sent) == head;
    outcome, sent, out := Splice(client, upstream, attempt, rest, up, old(client.log), sent);
  }

  /** `copy_bidirectional`. */
  method Splice(client: Wire, upstream: Wire, attempt: nat, rest: bytes, up: Upstream, ghost before: seq<Delivery>,
                ghost sent: seq<Delivery>)
    returns (outcome: RelayOutcome, ghost more: seq<Delivery>, ghost out: seq<Delivery>)
    requires client != upstream && client.log == before + sent && AllFrom(sent, Attempt(attempt))
    modifies client, upstream
    ensures outcome in {Ok, ClientCommitted(ErrorOnStream)}
    ensures client.log == before + more && AllFrom(more, Attempt(attempt))
    ensures Bytes(more) <= Bytes(sent) + rest && (outcome == Ok ==> Bytes(more) == Bytes(sent) + rest)
    ensures upstream.log == old(upstream.log) + out && IsPumped(out, attempt, up, outcome)
  {
    var pumpedAll, done;
    pumpedAll, out := Write(upstream, Spliced(attempt), up.more, if up.spliceOk then None else Some(up.pumped));
    done, more := SendMore(client, Attempt(attempt), rest, if up.spliceOk then None else Some(up.spliced),
                           before, sent);
    outcome := if done && pumpedAll then Ok else ClientCommitted(ErrorOnStream);
  }

  /** The request is written upstream: by the forwarding front end, once the proxy is connected and negotiated. */
  predicate Reaches(req: ClientRequest, up: Upstream) {
    req.frontend == HttpForward && up.connectError.None? && up.negotiateError.None?
  }

  /** The negotiation's part of what an attempt sends. */
  ghost predicate IsGreeting(out: seq<Delivery>, attempt: nat, up: Upstream) {
    out == if up.connectError.None? then [Delivery(Greeting(attempt), up.greeting)] else []
  }

  /** The request's part: the rewritten head, all of it unless the write fails. */
  ghost predicate IsHead(out: seq<Delivery>, attempt: nat, req: ClientRequest, up: Upstream, auth: Option<Credentials>)
  {
    if Reaches(req, up) then
      IsWritten(out, Attempt(attempt), Forwarded(req.raw, auth), up.requestWrite.None?)
    else
      out == []
  }

  /** All that one attempt sends upstream: its negotiation, the rewritten head, the client's further bytes. */
  ghost predicate Forwards(before: seq<Delivery>, after: seq<Delivery>, attempt: nat, req: ClientRequest, up: Upstream,
                           auth: Option<Credentials>, outcome: RelayOutcome)
  {
    && GotThrough(req, up, outcome)
    && exists greeting, head, more :: SendsParts(before, after, greeting, head, more, attempt, req, up, auth, outcome)
  }

  ghost predicate SendsParts(before: seq<Delivery>, after: seq<Delivery>, greeting: seq<Delivery>, head: seq<Delivery>,
                             more: seq<Delivery>, attempt: nat, req: ClientRequest, up: Upstream,
                             auth: Option<Credentials>, outcome: RelayOutcome)
  {
    && IsGreeting(greeting, attempt, up) && IsHead(head, attempt, req, up, auth) && IsPumped(more, attempt, up, outcome)
    && after == before + greeting + head + more
  }

  /** A reply only ever follows a negotiation and, for a forwarded request, a head that got through. */
  ghost predicate GotThrough(req: ClientRequest, up: Upstream, outcome: RelayOutcome) {
    !outcome.RetryableFailure? ==>
      && up.connectError.None? && up.negotiateError.None?
      && (req.frontend == HttpForward ==> up.requestWrite.None?)
  }

  /** `strip_header`, `inject_header` and the write. */
  method Forward(upstream: Wire, attempt: nat, auth: Option<Credentials>, req: ClientRequest, up: Upstream)
    returns (ok: bool, ghost out: seq<Delivery>)
    requires Reaches(req, up)
    modifies upstream
    ensures upstream.log == old(upstream.log) + out && IsHead(out, attempt, req, up, auth)
    ensures ok <==> up.requestWrite.None?
  {
    var toSend := StripHeader(req.raw, PROXY_AUTHORIZATION);
    if auth.Some? {
      toSend := InjectHeader(toSend, PROXY_AUTHORIZATION + [COLON, 32] + BasicValue(auth.value) + CRLF);
    }
    ok, out := Write(upstream, Attempt(attempt), toSend, up.requestWrite);
  }

  /** Connect and negotiate. */
  method Negotiate(upstream: Wire, attempt: nat, up: Upstream)
    returns (error: Option<ProxyError>, ghost out: seq<Delivery>)
    modifies upstream
    ensures error == if up.connectError.Some? then up.connectError else up.negotiateError
    ensures upstream.log == old(upstream.log) + out && IsGreeting(out, attempt, up)
  {
    if up.connectError.Some? {
      return up.connectError, [];
    }
    var unused;
    unused, out := Write(upstream, Greeting(attempt), up.greeting, None);
    assert up.greeting[..|up.greeting|] == up.greeting;
    error := up.negotiateError;
  }

  /**
   From the negotiated proxy to the commit point: the head goes upstream where there is one to forward,
   and the status line is read and gated where no body is to follow. `k` is where the rest of the answer
   begins.
   */
  method Ask(upstream: Wire, attempt: nat, auth: Option<Credentials>, req: ClientRequest, up: Upstream,
             allowed: Option<seq<nat>>, info: bytes, ack: bytes)
    returns (error: Option<ProxyError>, head: bytes, k: nat, ghost out: seq<Delivery>)
    requires up.connectError.None? && up.negotiateError.None?
    modifies upstream
    ensures upstream.log == old(upstream.log) + out && IsHead(out, attempt, req, up, auth)
    ensures error.None? ==>
      Opens(req, up, allowed, info, ack, head, k) && (req.frontend == HttpForward ==> up.requestWrite.None?)
  {
    error, head, k, out := None, [], 0, [];
    if req.frontend == HttpConnect {
      head := ack;
    } else if req.frontend == SocksConnect {
      head := SOCKS_SUCCESS;
    } else {
      var written;
      written, out := Forward(upstream, attempt, auth, req, up);
      if !written {
        error := Some(Reset);
        return;
      }
      if !RequestHasBody(req.raw) {
        var line := ReadStatusLine(up.answer);
        if line.Failure? {
          error := Some(line.error);
          return;
        }
        var code := ParseHttpStatus(line.value);
        if allowed.Some? && code !in allowed.value {
          error := Some(DisallowedStatus(code));
          return;
        }
        head, k := InjectHeader(line.value, info), |line.value|;
      }
    }
  }

  method RelayOnce(client: Wire, upstream: Wire, attempt: nat, auth: Option<Credentials>, req: ClientRequest,
                   up: Upstream, allowed: Option<seq<nat>>, info: bytes, ack: bytes)
    returns (outcome: RelayOutcome, ghost sent: seq<Delivery>)
    requires client != upstream
    modifies client, upstream
    ensures client.log == old(client.log) + sent
    // Before the commit point nothing has reached the client.
    ensures outcome.RetryableFailure? ==> sent == []
    // From then on everything is part of one reply, and it all comes from this attempt.
    ensures !outcome.RetryableFailure? ==> AllFrom(sent, Attempt(attempt))
    ensures !outcome.RetryableFailure? ==> ReadsReply(Bytes(sent), outcome == Ok, req, up, allowed, info, ack)
    // The upstream gets the negotiation, the rewritten head and what the splice carries.
    ensures Forwards(old(upstream.log), upstream.log, attempt, req, up, auth, outcome)
  {
    sent := [];
    ghost var before := upstream.log;
    var error;
    ghost var greeting, asked, more;
    error, greeting := Negotiate(upstream, attempt, up);
    if error.Some? {
      outcome := RetryableFailure(error.value);
      assert SendsParts(before, upstream.log, greeting, [], [], attempt, req, up, auth, outcome);
      return;
    }
    var head, k;
    error, head, k, asked := Ask(upstream, attempt, auth, req, up, allowed, info, ack);
    if error.Some? {
      outcome := RetryableFailure(error.value);
      assert SendsParts(before, upstream.log, greeting, asked, [], attempt, req, up, auth, outcome);
      return;
    }
    outcome, sent, more := Commit(client, upstream, attempt, head, up.answer.data[k..], up);
    assert SendsParts(before, upstream.log, greeting, asked, more, attempt, req, up, auth, outcome);
  }

  // ----- The request -----

  /** One lease of the retry loop: what came out of the pool, how it went, what went back. */
  datatype Try = Try(leased: Proxy, outcome: RelayOutcome, returned: Proxy)

  /** What is charged to the proxy; a client that has gone is not its fault. */
  function Charge(outcome: RelayOutcome): Attempt {
    match outcome
    case Ok => Worked(0.0)
    case ClientGone => Worked(0.0)
    case RetryableFailure(e) => Failed(e)
    case ClientCommitted(e) => Failed(e)
  }

  /** The lease served the scheme, and was charged once. */
  ghost predicate TryIsSound(t: Try, scheme: Scheme) {
    t.leased.Serves(scheme) && t.returned == Report(t.leased, Charge(t.outcome))
  }

  ghost predicate AllFailed(tries: seq<Try>, n: int) {
    forall i :: 0 <= i < n && i < |tries| ==> tries[i].outcome.RetryableFailure?
  }

  ghost predicate TriesAreSound(tries: seq<Try>, scheme: Scheme) {
    (forall i :: 0 <= i < |tries| ==> TryIsSound(tries[i], scheme)) && AllFailed(tries, |tries| - 1)
  }

  lemma OneMoreTry(tries: seq<Try>, t: Try, scheme: Scheme)
    requires TriesAreSound(tries, scheme) && AllFailed(tries, |tries|) && TryIsSound(t, scheme)
    ensures TriesAreSound(tries + [t], scheme)
    ensures t.outcome.RetryableFailure? ==> AllFailed(tries + [t], |tries| + 1)
  {
  }

  /** The last try was the request's last word. */
  predicate Committed(tries: seq<Try>) {
    tries != [] && !tries[|tries| - 1].outcome.RetryableFailure?
  }

  /** Until when the proxy is benched: only an upstream that failed is. */
  function Bench(outcome: RelayOutcome, benchTime: int, config: PoolConfig): Option<int> {
    if outcome == Ok || outcome == ClientGone then None else Some(benchTime + config.failTimeout)
  }

  /** Between two attempts: the proxy is charged, and it is the charged record that returns, benched or healthy. */
  method GiveBack(pool: Pool, leased: Proxy, outcome: RelayOutcome, benchTime: int) returns (returned: Proxy)
    requires pool.Valid() && leased.addr in pool.books.leased
    modifies pool`state, pool`epoch, pool`evictions, pool`books, pool`givenBack
    ensures pool.Valid() && returned == Report(leased, Charge(outcome))
    ensures pool.Returned(old(pool.state), old(pool.epoch), old(pool.evictions), returned,
                          Bench(outcome, benchTime, pool.config))
    ensures pool.books == old(pool.books).TakeBack(returned, pool.config) && returned.addr == leased.addr
    ensures pool.givenBack == old(pool.givenBack) + [Return(returned, Bench(outcome, benchTime, pool.config), false)]
  {
    returned := Report(leased, Charge(outcome));
    if outcome == Ok || outcome == ClientGone {
      pool.PutOk(returned);
    } else {
      pool.PutFailed(returned, benchTime, false);
    }
  }

  /** The give-back of a try. */
  function Give(t: Try, round: Round, config: PoolConfig): Return {
    Return(t.returned, Bench(t.outcome, round.benchTime, config), false)
  }

  /** All the client has read is part of this attempt's reply. */
  ghost predicate Answered(t: Try, attempt: nat, log: seq<Delivery>, req: ClientRequest, round: Round,
                           config: PoolConfig, info: Address -> bytes, ack: Address -> bytes)
  {
    && AllFrom(log, Attempt(attempt))
    && ReadsReply(Bytes(log), t.outcome == Ok, req, round.upstream, config.httpAllowedCodes,
                  info(t.leased.addr), ack(t.leased.addr))
  }

  /** One round of the retry loop; `None` when the pool has nothing to lease. */
  method TryOnce(pool: Pool, client: Wire, upstream: Wire, attempt: nat, req: ClientRequest, key: ClientKey,
                 round: Round, info: Address -> bytes, ack: Address -> bytes)
    returns (t: Option<Try>)
    requires pool.Valid() && client.log == [] && client != upstream
    modifies pool, client, upstream
    ensures pool.Valid() && pool.books.leased == old(pool.books).leased
    ensures pool.rotations == old(pool.rotations) + (if attempt > 0 && t.Some? then 1 else 0)
    ensures t.None? ==> client.log == [] && upstream.log == old(upstream.log)
    ensures t.Some? ==> TryIsSound(t.value, req.scheme)
    ensures t.Some? && t.value.outcome.RetryableFailure? ==> client.log == []
    ensures t.Some? && !t.value.outcome.RetryableFailure? ==>
      Answered(t.value, attempt, client.log, req, round, pool.config, info, ack)
    // One give-back for the one lease: the charged record, benched iff the upstream failed.
    ensures ByLessees(pool.givenBack) == ByLessees(old(pool.givenBack))
      + if t.Some? then [Give(t.value, round, pool.config)] else []
    ensures t.Some? ==> Landed(pool.state, pool.evictions, Give(t.value, round, pool.config), pool.config)
    ensures t.Some? ==>
      Forwards(old(upstream.log), upstream.log, attempt, req, round.upstream, t.value.leased.auth, t.value.outcome)
  {
    var proxy := pool.Checkout(req.scheme, key, round.now, round.draw, round.live, round.others);
    if proxy.None? {
      return None;
    }
    if attempt > 0 {
      pool.rotations := pool.rotations + 1;
    }
    LeaseCloses(old(pool.books.leased), proxy.value.addr);
    var done := Attend(pool, client, upstream, attempt, req, proxy.value, round, info, ack);
    return Some(done);
  }

  /** From the lease to the give-back. */
  method Attend(pool: Pool, client: Wire, upstream: Wire, attempt: nat, req: ClientRequest, p: Proxy, round: Round,
                info: Address -> bytes, ack: Address -> bytes)
    returns (t: Try)
    requires pool.Valid() && client.log == [] && client != upstream && p.addr in pool.books.leased
    requires p.Serves(req.scheme)
    modifies pool`state, pool`epoch, pool`evictions, pool`books, pool`givenBack, client, upstream
    ensures pool.Valid() && pool.books.leased == old(pool.books).leased - multiset{p.addr}
    ensures t.leased == p && TryIsSound(t, req.scheme)
    ensures if t.outcome.RetryableFailure? then client.log == []
            else Answered(t, attempt, client.log, req, round, pool.config, info, ack)
    ensures ByLessees(pool.givenBack) == ByLessees(old(pool.givenBack)) + [Give(t, round, pool.config)]
    ensures Landed(pool.state, pool.evictions, Give(t, round, pool.config), pool.config)
    ensures Forwards(old(upstream.log), upstream.log, attempt, req, round.upstream, p.auth, t.outcome)
  {
    var outcome, sent := RelayOnce(client, upstream, attempt, p.auth, req, round.upstream,
                                   pool.config.httpAllowedCodes, info(p.addr), ack(p.addr));
    assert [] + sent == sent;
    var returned := GiveBack(pool, p, outcome, round.benchTime);
    t := Try(p, outcome, returned);
    OneMoreReturn(old(pool.givenBack), Give(t, round, pool.config));
  }

  /** The give-backs of all tries. */
  function Gives(tries: seq<Try>, rounds: nat -> Round, config: PoolConfig): seq<Return> {
    if tries == [] then []
    else Gives(tries[..|tries| - 1], rounds, config) + [Give(tries[|tries| - 1], rounds(|tries| - 1), config)]
  }

  /** What the tries have sent upstream, one after the other. */
  ghost predicate AllForwarded(log: seq<Delivery>, tries: seq<Try>, req: ClientRequest, rounds: nat -> Round)
    decreases |tries|
  {
    if tries == [] then log == []
    else
      var last := |tries| - 1;
      exists before :: AllForwarded(before, tries[..last], req, rounds)
        && Forwards(before, log, last, req, rounds(last).upstream, tries[last].leased.auth, tries[last].outcome)
  }

  /** What the whole loop leaves behind: the tries, and what the client has read. */
  ghost predicate Served(tries: seq<Try>, log: seq<Delivery>, req: ClientRequest, rounds: nat -> Round,
                         config: PoolConfig, info: Address -> bytes, ack: Address -> bytes)
  {
    && |tries| <= config.maxTries && TriesAreSound(tries, req.scheme)
    && if Committed(tries) then
         var last := |tries| - 1;
         Answered(tries[last], last, log, req, rounds(last), config, info, ack)
       else
         |log| == 1 && log[0].origin == Local && log[0].data <= TerminalFailure(req.frontend)
  }

  /** What the loop has so far: sound tries, and an answer only where the last one committed. */
  ghost predicate SoFar(tries: seq<Try>, log: seq<Delivery>, req: ClientRequest, rounds: nat -> Round,
                        config: PoolConfig, info: Address -> bytes, ack: Address -> bytes)
  {
    && TriesAreSound(tries, req.scheme)
    && if Committed(tries) then
         var last := |tries| - 1;
         Answered(tries[last], last, log, req, rounds(last), config, info, ack)
       else
         log == [] && AllFailed(tries, |tries|)
  }

  lemma OneMoreForwarded(before: seq<Delivery>, after: seq<Delivery>, tries: seq<Try>, t: Try, req: ClientRequest,
                         rounds: nat -> Round)
    requires AllForwarded(before, tries, req, rounds)
    requires Forwards(before, after, |tries|, req, rounds(|tries|).upstream, t.leased.auth, t.outcome)
    ensures AllForwarded(after, tries + [t], req, rounds)
  {
    assert (tries + [t])[..|tries|] == tries;
  }

  /** The tries' give-backs, and no other lessee's, have been made since. */
  ghost predicate GaveBack(before: seq<Return>, after: seq<Return>, tries: seq<Try>, rounds: nat -> Round,
                           config: PoolConfig)
  {
    ByLessees(after) == ByLessees(before) + Gives(tries, rounds, config)
  }

  lemma OneMoreGive(before: seq<Return>, between: seq<Return>, after: seq<Return>, tries: seq<Try>, t: Try,
                    rounds: nat -> Round, config: PoolConfig)
    requires GaveBack(before, between, tries, rounds, config)
    requires ByLessees(after) == ByLessees(between) + [Give(t, rounds(|tries|), config)]
    ensures GaveBack(before, after, tries + [t], rounds, config)
  {
    assert (tries + [t])[..|tries|] == tries;
    Append(ByLessees(before), Gives(tries, rounds, config), [Give(t, rounds(|tries|), config)]);
  }

  /** The next round of the loop: it is over when the pool has nothing to lease, or the try committed. */
  method TryNext(pool: Pool, client: Wire, upstream: Wire, tries: seq<Try>, req: ClientRequest, key: ClientKey,
                 rounds: nat -> Round, info: Address -> bytes, ack: Address -> bytes, ghost start: seq<Return>)
    returns (over: bool, more: seq<Try>)
    requires pool.Valid() && !Committed(tries) && client != upstream
    requires SoFar(tries, client.log, req, rounds, pool.config, info, ack)
    requires AllForwarded(upstream.log, tries, req, rounds)
    requires GaveBack(start, pool.givenBack, tries, rounds, pool.config)
    modifies pool, client, upstream
    ensures pool.Valid() && pool.books.leased == old(pool.books).leased
    ensures SoFar(more, client.log, req, rounds, pool.config, info, ack)
    ensures AllForwarded(upstream.log, more, req, rounds)
    ensures GaveBack(start, pool.givenBack, more, rounds, pool.config)
    ensures more == tries || (|more| == |tries| + 1 && tries <= more)
    ensures pool.rotations == old(pool.rotations) + (if |more| > |tries| > 0 then 1 else 0)
    ensures over <==> more == tries || Committed(more)
  {
    ghost var between := pool.givenBack;
    var t := TryOnce(pool, client, upstream, |tries|, req, key, rounds(|tries|), info, ack);
    if t.None? {
      return true, tries;
    }
    OneMoreTry(tries, t.value, req.scheme);
    OneMoreForwarded(old(upstream.log), upstream.log, tries, t.value, req, rounds);
    OneMoreGive(start, between, pool.givenBack, tries, t.value, rounds, pool.config);
    return !t.value.outcome.RetryableFailure?, tries + [t.value];
  }

  /** The retry loop of `handle_client`. */
  method TryAll(pool: Pool, client: Wire, upstream: Wire, req: ClientRequest, key: ClientKey, rounds: nat -> Round,
                info: Address -> bytes, ack: Address -> bytes)
    returns (tries: seq<Try>)
    requires pool.Valid() && client.log == upstream.log == [] && client != upstream
    modifies pool, client, upstream
    ensures pool.Valid() && pool.books.leased == old(pool.books).leased
    ensures pool.rotations == old(pool.rotations) + (if |tries| > 1 then |tries| - 1 else 0)
    ensures |tries| <= pool.config.maxTries && SoFar(tries, client.log, req, rounds, pool.config, info, ack)
    ensures AllForwarded(upstream.log, tries, req, rounds)
    ensures GaveBack(old(pool.givenBack), pool.givenBack, tries, rounds, pool.config)
  {
    tries := [];
    var over := false;
    while |tries| < pool.config.maxTries && !over
      invariant pool.Valid() && |tries| <= pool.config.maxTries
      invariant SoFar(tries, client.log, req, rounds, pool.config, info, ack) && (!over ==> !Committed(tries))
      invariant AllForwarded(upstream.log, tries, req, rounds)
      invariant pool.books.leased == old(pool.books).leased
      invariant pool.rotations == old(pool.rotations) + (if |tries| > 1 then |tries| - 1 else 0)
      invariant GaveBack(old(pool.givenBack), pool.givenBack, tries, rounds, pool.config)
      decreases !over, pool.config.maxTries - |tries|
    {
      over, tries := TryNext(pool, client, upstream, tries, req, key, rounds, info, ack, old(pool.givenBack));
    }
  }

  /** The retry loop, and the failure reply when no try committed. */
  method ServeClient(pool: Pool, client: Wire, upstream: Wire, req: ClientRequest, key: ClientKey,
                     rounds: nat -> Round, finalWrite: WriteFault, info: Address -> bytes, ack: Address -> bytes)
    returns (tries: seq<Try>)
    requires pool.Valid() && client.log == upstream.log == [] && client != upstream
    modifies pool, client, upstream
    ensures pool.Valid()
    // Bounded; only an uncommitted failure is followed by another try; and the client reads one
    // attempt's reply or the failure reply of its own protocol, never both.
    ensures Served(tries, client.log, req, rounds, pool.config, info, ack)
    // What upstreams have been sent: a negotiation and a rewritten head each, and to the committed try's
    // upstream the client's further bytes.
    ensures AllForwarded(upstream.log, tries, req, rounds)
    // Every lease is over, one give-back each, of the charged record; a rotation is a second or later lease.
    ensures pool.books.leased == old(pool.books).leased
    ensures GaveBack(old(pool.givenBack), pool.givenBack, tries, rounds, pool.config)
    ensures pool.rotations == old(pool.rotations) + (if |tries| > 1 then |tries| - 1 else 0)
  {
    tries := TryAll(pool, client, upstream, req, key, rounds, info, ack);
    if !Committed(tries) {
      var _ := client.Send(Local, TerminalFailure(req.frontend), finalWrite);
    }
  }

  /** `client_key`: the sticky header's value for a forwarded request that has one, else the peer. */
  function KeyOf(stickyHeader: Option<bytes>, peer: Ip, req: ClientRequest): ClientKey {
    if req.scheme == PlainHttp && stickyHeader.Some? && HeaderValue(req.raw, stickyHeader.value).Some?
    then ByHeader(HeaderValue(req.raw, stickyHeader.value).value)
    else ByIp(peer)
  }

  /**
   `handle_client`, from the credentials gate on, for a request that is not for the control host.
   `info` and `ack` render the information line and the CONNECT acknowledgement for an address.
   */
  method HandleClient(pool: Pool, client: Wire, upstream: Wire, req: ClientRequest, peer: Ip,
                      expectedAuth: Option<bytes>, rounds: nat -> Round, finalWrite: WriteFault,
                      info: Address -> bytes, ack: Address -> bytes)
    returns (tries: seq<Try>, refused: bool)
    requires pool.Valid() && client.log == upstream.log == [] && client != upstream
    modifies pool, client, upstream
    ensures pool.Valid() && pool.books.leased == old(pool.books).leased
    ensures refused <==> req.frontend != SocksConnect && expectedAuth.Some? && req.proxyAuth != expectedAuth
    // A client without the credentials never costs the pool a lease.
    ensures refused ==>
      tries == [] && upstream.log == [] && pool.books == old(pool.books) && pool.state == old(pool.state)
    ensures refused ==> |client.log| == 1 && client.log[0].origin == Local && client.log[0].data <= AUTH_REQUIRED
    ensures !refused ==> Served(tries, client.log, req, rounds, pool.config, info, ack)
    ensures AllForwarded(upstream.log, tries, req, rounds)
    ensures GaveBack(old(pool.givenBack), pool.givenBack, tries, rounds, pool.config)
    ensures pool.rotations == old(pool.rotations) + (if |tries| > 1 then |tries| - 1 else 0)
  {
    refused := req.frontend != SocksConnect && expectedAuth.Some? && req.proxyAuth != expectedAuth;
    if refused {
      tries := [];
      var _ := client.Send(Local, AUTH_REQUIRED, finalWrite);
    } else {
      var key := KeyOf(pool.config.stickyHeader, peer, req);
      tries := ServeClient(pool, client, upstream, req, key, rounds, finalWrite, info, ack);
    }
  }

  // ----- What the two wires carry -----

  /** The prefix of the client's copy up to the status line is the upstream's own. */
  lemma OpeningStartsWithStatusLine(data: bytes, k: nat, info: bytes)
    requires IsStatusLine(data, k)
    ensures data[..k] <= InjectHeader(data[..k], info)
  {
    SpliceIsExact(data, k, info);
    var line := data[..k];
    if k >= 2 && CrLfAt(data, k - 2) {
      FirstCrLfIs(line, k - 2);
      assert line[..k] == line;
    } else {
      forall i | 0 <= i < k ensures !CrLfAt(line, i) {
        assert CrLfAt(line, i) ==> CrLfAt(data, i);
      }
    }
  }

  lemma PrefixOfPrefix(got: bytes, line: bytes, head: bytes, rest: bytes)
    requires line <= head && got <= head + rest && |got| >= |line|
    ensures got == line + got[|line|..]
  {
    assert (head + rest)[..|line|] == line;
    assert got[..|line|] == line;
  }

  lemma OpenedStatus(req: ClientRequest, up: Upstream, allowed: seq<nat>, info: bytes, ack: bytes, head: bytes,
                     j: nat, k: nat)
    requires req.frontend == HttpForward && !RequestHasBody(req.raw)
    requires Opens(req, up, Some(allowed), info, ack, head, j) && IsStatusLine(up.answer.data, k)
    ensures j == k && up.answer.data[..k] <= head && ParseHttpStatus(up.answer.data[..k]) in allowed
  {
    StatusLineIsUnique(up.answer.data, j, k);
    OpeningStartsWithStatusLine(up.answer.data, k, info);
  }

  lemma SeenStatus(got: bytes, data: bytes, head: bytes, k: nat)
    requires k <= |data| && k <= |got| && data[..k] <= head && got <= head + data[k..]
    ensures got == data[..k] + got[k..] && data == data[..k] + data[k..]
    ensures StatusSettled(data[..k]) ==> CodeOf(got) == CodeOf(data[..k]) == CodeOf(data)
  {
    PrefixOfPrefix(got, data[..k], head, data[k..]);
    assert data == data[..k] + data[k..];
    if StatusSettled(data[..k]) {
      SettledStatusIsFinal(data[..k], got[k..]);
      SettledStatusIsFinal(data[..k], data[k..]);
    }
  }

  /**
   With an allow-list, the first status line that a client whose request has no body reads has an allowed
   code; `OnlyTheFirstStatusIsGated` is about the later ones.
   That is the code of all it reads, and of the upstream's answer, unless the line was cut at the cap
   inside the code; `Responses.GateIsFinal` says that it can be neither, then.
   */
  lemma ClientSeesAllowedStatus(got: bytes, whole: bool, req: ClientRequest, up: Upstream, allowed: seq<nat>,
                                info: bytes, ack: bytes, k: nat)
    requires req.frontend == HttpForward && !RequestHasBody(req.raw) && 0 !in allowed
    requires ReadsReply(got, whole, req, up, Some(allowed), info, ack)
    requires IsStatusLine(up.answer.data, k) && |got| >= k
    ensures var line := up.answer.data[..k];
      && got[..k] == line && CodeOf(line) in allowed
      && (StatusSettled(line) ==> CodeOf(got) == CodeOf(line) == CodeOf(up.answer.data))
      && (!StatusSettled(line) ==> k == STATUS_LINE_CAP && line[k - 1] != LF)
  {
    var data := up.answer.data;
    var head, j: nat :| Opens(req, up, Some(allowed), info, ack, head, j) && got <= head + data[j..];
    OpenedStatus(req, up, allowed, info, ack, head, j, k);
    SeenStatus(got, data, head, k);
    GateReadsTheRealStatus(data, k);
  }

  /** An answer cut inside its code: the allow-list holds 200, the client reads 2005. */
  lemma CutStatusReachesTheClient(req: ClientRequest, up: Upstream, info: bytes, ack: bytes)
    requires req.frontend == HttpForward && !RequestHasBody(req.raw)
    requires up.answer.data == CutLine() + [53] && up.answer.inTime >= STATUS_LINE_CAP
    ensures ReadsReply(up.answer.data, true, req, up, Some([200]), info, ack) && CodeOf(up.answer.data) == 2005
  {
    var data := up.answer.data;
    CutLineFoolsTheGate();
    assert data == CutLine() + data[STATUS_LINE_CAP..];
    forall i | 0 <= i < |CutLine()| ensures !CrLfAt(CutLine(), i) {
    }
    assert InjectHeader(CutLine(), info) == CutLine();
    assert Opens(req, up, Some([200]), info, ack, CutLine(), STATUS_LINE_CAP);
  }

  /** Only the first status line is looked at: whatever follows it in the answer passes, later answers too. */
  lemma OnlyTheFirstStatusIsGated(req: ClientRequest, up: Upstream, allowed: seq<nat>, info: bytes, ack: bytes,
                                  line: bytes, rest: bytes)
    requires req.frontend == HttpForward && !RequestHasBody(req.raw)
    requires up.answer.data == line + rest && IsStatusLine(line, |line|) && |line| <= up.answer.inTime
    requires ParseHttpStatus(line) in allowed
    ensures ReadsReply(InjectHeader(line, info) + rest, true, req, up, Some(allowed), info, ack)
  {
    var data, k := up.answer.data, |line|;
    assert data[..k] == line && data[k..] == rest;
    forall i | 0 <= i < k ensures data[i] == line[i] {
    }
    assert IsStatusLine(data, k);
    assert Opens(req, up, Some(allowed), info, ack, InjectHeader(line, info), k);
  }

  /** The allow-list holds 200, and the second answer on the connection is a 403. */
  lemma LaterStatusReachesTheClient(req: ClientRequest, up: Upstream, info: bytes, ack: bytes)
    requires req.frontend == HttpForward && !RequestHasBody(req.raw)
    requires up.answer.data == ShortLine([50, 48, 48]) + (CRLF + ShortLine([52, 48, 51]) + CRLF)
    requires up.answer.inTime >= 7
    ensures ParseHttpStatus(ShortLine([50, 48, 48])) == 200 && ParseHttpStatus(ShortLine([52, 48, 51])) == 403
    ensures ReadsReply(InjectHeader(ShortLine([50, 48, 48]), info) + (CRLF + ShortLine([52, 48, 51]) + CRLF), true,
                       req, up, Some([200]), info, ack)
  {
    ShortLineReads([50, 48, 48]);
    ShortLineReads([52, 48, 51]);
    OkAndForbidden();
    OnlyTheFirstStatusIsGated(req, up, [200], info, ack, ShortLine([50, 48, 48]),
                              CRLF + ShortLine([52, 48, 51]) + CRLF);
  }

  /** `Basic ` and base64 text: nothing in it ends a line or is trimmed away. */
  lemma BasicValueIsClean(c: Credentials)
    ensures var v := BasicValue(c);
      v != [] && NoLf(v) && !IsSpace(v[0]) && !IsSpace(v[|v| - 1])
  {
    var secret := c.username + [COLON] + c.password;
    var code := Encode(secret);
    EncodedLength(secret);
    forall i | 0 <= i < |code| ensures 43 <= code[i] <= 122 {
      EncodedIsPrintable(secret, i);
    }
    var v := BasicValue(c);
    assert v[|v| - 1] == code[|code| - 1];
  }

  lemma OwnIsPresentable(auth: Option<Credentials>)
    ensures Presentable(PROXY_AUTHORIZATION, OwnValue(auth))
  {
    if auth.Some? {
      BasicValueIsClean(auth.value);
    }
  }

  /**
   What an upstream receives for a clean head: its own credentials in the one line directly under the
   request line, or no such line at all; the client's never.
   */
  lemma UpstreamSeesOnlyItsCredentials(raw: bytes, auth: Option<Credentials>)
    requires CleanHead(raw)
    ensures HeaderValue(Forwarded(raw, auth), PROXY_AUTHORIZATION)
         == if auth.Some? then Some(BasicValue(auth.value)) else None
    ensures Split(Forwarded(raw, auth))[0] == Split(raw)[0]
    ensures var pieces := Split(Forwarded(raw, auth));
      forall i :: (if auth.Some? then 2 else 1) <= i < |pieces| - 1 ==> !Named(pieces[i], PROXY_AUTHORIZATION)
  {
    OwnIsPresentable(auth);
    if auth.Some? {
      ForwardedWithCredentials(raw, PROXY_AUTHORIZATION, BasicValue(auth.value));
    } else {
      ForwardedWithoutCredentials(raw, PROXY_AUTHORIZATION);
      StrippedIsClean(raw, PROXY_AUTHORIZATION);
    }
  }

  /** A head that is not clean: the client's secret goes upstream, and is read back there. */
  lemma SecretReachesUpstream()
    ensures Forwarded(BareLf.SMUGGLED, None) == BareLf.SMUGGLED
    ensures HeaderValue(Forwarded(BareLf.SMUGGLED, None), PROXY_AUTHORIZATION) == Some(BareLf.BASIC_X)
  {
    BareLf.SecretGetsThrough();
  }

}
