/**
 All that upstreams are sent in the course of one client connection (`handle_client` and `relay` in
 `src/server.rs`), and what of it they can read as proxy credentials.
 */
module Upstreams {
  import opened Wrappers
  import opened Proxies
  import opened Heads
  import opened BareLf
  import opened Streams
  import opened Relay

  /** The bytes of the entries of these origins, in order. */
  ghost function Gather(log: seq<Delivery>, origins: set<Origin>): bytes {
    if log == [] then []
    else
      var last := log[|log| - 1];
      Gather(log[..|log| - 1], origins) + if last.origin in origins then last.data else []
  }

  /** What the upstream of try i has been sent after its negotiation. */
  ghost function Stream(log: seq<Delivery>, i: nat): bytes {
    Gather(log, {Attempt(i), Spliced(i)})
  }

  /** What of it the client wrote after its first head. */
  ghost function Pumped(log: seq<Delivery>, i: nat): bytes {
    Gather(log, {Spliced(i)})
  }

  lemma {:induction false} GatherAppend(a: seq<Delivery>, b: seq<Delivery>, origins: set<Origin>)
    ensures Gather(a + b, origins) == Gather(a, origins) + Gather(b, origins)
  {
    if b == [] {
      assert a + b == a;
    } else {
      var last := b[|b| - 1];
      GatherAppend(a, b[..|b| - 1], origins);
      assert (a + b)[..|a + b| - 1] == a + b[..|b| - 1];
    }
  }

  lemma {:induction false} GatherNone(log: seq<Delivery>, origins: set<Origin>)
    requires forall k :: 0 <= k < |log| ==> log[k].origin !in origins
    ensures Gather(log, origins) == []
  {
    if log != [] {
      GatherNone(log[..|log| - 1], origins);
    }
  }

  lemma {:induction false} GatherAll(log: seq<Delivery>, origins: set<Origin>)
    requires forall k :: 0 <= k < |log| ==> log[k].origin in origins
    ensures Gather(log, origins) == Bytes(log)
  {
    if log != [] {
      GatherAll(log[..|log| - 1], origins);
    }
  }

  /** The entry belongs to one of the first n tries. */
  ghost predicate OfTries(log: seq<Delivery>, n: nat) {
    forall k :: 0 <= k < |log| ==> !log[k].origin.Local? && log[k].origin.n < n
  }

  lemma OfTriesAppend(a: seq<Delivery>, b: seq<Delivery>, n: nat)
    requires OfTries(a, n) && OfTries(b, n)
    ensures OfTries(a + b, n)
  {
  }

  lemma OneOfTries(out: seq<Delivery>, origin: Origin, data: bytes, whole: bool, n: nat)
    requires IsWritten(out, origin, data, whole) && !origin.Local? && origin.n < n
    ensures OfTries(out, n)
  {
  }

  lemma PartsAreOfTry(before: seq<Delivery>, after: seq<Delivery>, attempt: nat, req: ClientRequest, up: Upstream,
                      auth: Option<Credentials>, outcome: RelayOutcome)
    requires OfTries(before, attempt) && Forwards(before, after, attempt, req, up, auth, outcome)
    ensures OfTries(after, attempt + 1)
  {
    var greeting, head, more :| SendsParts(before, after, greeting, head, more, attempt, req, up, auth, outcome);
    var n := attempt + 1;
    if Reaches(req, up) {
      OneOfTries(head, Attempt(attempt), Forwarded(req.raw, auth), up.requestWrite.None?, n);
    }
    if Splices(outcome) {
      OneOfTries(more, Spliced(attempt), up.more, outcome == Ok, n);
    }
    OfTriesAppend(before, greeting, n);
    OfTriesAppend(before + greeting, head, n);
    OfTriesAppend(before + greeting + head, more, n);
  }

  lemma {:induction false} AllOfTries(log: seq<Delivery>, tries: seq<Try>, req: ClientRequest, rounds: nat -> Round)
    requires AllForwarded(log, tries, req, rounds)
    ensures OfTries(log, |tries|)
    decreases |tries|
  {
    if tries != [] {
      var last := |tries| - 1;
      var before :| AllForwarded(before, tries[..last], req, rounds)
        && Forwards(before, log, last, req, rounds(last).upstream, tries[last].leased.auth, tries[last].outcome);
      AllOfTries(before, tries[..last], req, rounds);
      PartsAreOfTry(before, log, last, req, rounds(last).upstream, tries[last].leased.auth, tries[last].outcome);
    }
  }

  /** The head and the further bytes of a try, as they are in the log. */
  ghost predicate Reached(log: seq<Delivery>, head: seq<Delivery>, more: seq<Delivery>, t: Try, i: nat,
                          req: ClientRequest, up: Upstream)
  {
    && GotThrough(req, up, t.outcome)
    && IsHead(head, i, req, up, t.leased.auth) && IsPumped(more, i, up, t.outcome)
    && Stream(log, i) == Bytes(head) + Bytes(more) && Pumped(log, i) == Bytes(more)
  }

  lemma OwnParts(before: seq<Delivery>, after: seq<Delivery>, t: Try, i: nat, req: ClientRequest, up: Upstream)
    returns (head: seq<Delivery>, more: seq<Delivery>)
    requires OfTries(before, i) && Forwards(before, after, i, req, up, t.leased.auth, t.outcome)
    ensures Reached(after, head, more, t, i, req, up)
  {
    var greeting, h, m :| SendsParts(before, after, greeting, h, m, i, req, up, t.leased.auth, t.outcome);
    head, more := h, m;
    PartOrigins(before, after, greeting, h, m, i, req, up, t.leased.auth, t.outcome);
    GatherParts(before, greeting, head, more, i, {Attempt(i), Spliced(i)});
    GatherParts(before, greeting, head, more, i, {Spliced(i)});
    GatherAll(head, {Attempt(i), Spliced(i)});
    GatherAll(more, {Attempt(i), Spliced(i)});
    GatherNone(head, {Spliced(i)});
    GatherAll(more, {Spliced(i)});
  }

  lemma GatherFour(a: seq<Delivery>, b: seq<Delivery>, c: seq<Delivery>, d: seq<Delivery>, origins: set<Origin>)
    ensures Gather(a + b + c + d, origins)
         == Gather(a, origins) + Gather(b, origins) + Gather(c, origins) + Gather(d, origins)
  {
    GatherAppend(a + b + c, d, origins);
    GatherAppend(a + b, c, origins);
    GatherAppend(a, b, origins);
  }

  lemma EarlierHaveNone(before: seq<Delivery>, i: nat, origins: set<Origin>)
    requires OfTries(before, i) && origins <= {Attempt(i), Spliced(i)}
    ensures Gather(before, origins) == []
  {
    forall k | 0 <= k < |before| ensures before[k].origin !in origins {
      assert before[k].origin.n < i;
    }
    GatherNone(before, origins);
  }

  lemma GatherParts(before: seq<Delivery>, greeting: seq<Delivery>, head: seq<Delivery>, more: seq<Delivery>, i: nat,
                    origins: set<Origin>)
    requires OfTries(before, i) && origins <= {Attempt(i), Spliced(i)}
    requires From(greeting, Greeting(i))
    ensures Gather(before + greeting + head + more, origins) == Gather(head, origins) + Gather(more, origins)
  {
    GatherFour(before, greeting, head, more, origins);
    EarlierHaveNone(before, i, origins);
    GatherNone(greeting, origins);
    NothingFirst(Gather(before, origins), Gather(greeting, origins), Gather(head, origins), Gather(more, origins));
  }

  lemma NothingFirst(a: bytes, b: bytes, c: bytes, d: bytes)
    requires a == [] && b == []
    ensures a + b + c + d == c + d
  {
  }

  lemma NothingAfter(a: bytes, b: bytes, c: bytes, d: bytes)
    requires b == [] && c == [] && d == []
    ensures a + b + c + d == a
  {
  }

  ghost predicate From(out: seq<Delivery>, origin: Origin) {
    forall k :: 0 <= k < |out| ==> out[k].origin == origin
  }

  lemma PartOrigins(before: seq<Delivery>, after: seq<Delivery>, greeting: seq<Delivery>, head: seq<Delivery>,
                    more: seq<Delivery>, attempt: nat, req: ClientRequest, up: Upstream, auth: Option<Credentials>,
                    outcome: RelayOutcome)
    requires SendsParts(before, after, greeting, head, more, attempt, req, up, auth, outcome)
    ensures From(greeting, Greeting(attempt)) && From(head, Attempt(attempt)) && From(more, Spliced(attempt))
    ensures after == before + greeting + head + more
  {
  }

  lemma OthersParts(before: seq<Delivery>, after: seq<Delivery>, attempt: nat, req: ClientRequest, up: Upstream,
                    auth: Option<Credentials>, outcome: RelayOutcome, i: nat)
    requires i < attempt && Forwards(before, after, attempt, req, up, auth, outcome)
    ensures Stream(after, i) == Stream(before, i) && Pumped(after, i) == Pumped(before, i)
  {
    var greeting, head, more :| SendsParts(before, after, greeting, head, more, attempt, req, up, auth, outcome);
    PartOrigins(before, after, greeting, head, more, attempt, req, up, auth, outcome);
    NothingFor(before, greeting, head, more, attempt, {Attempt(i), Spliced(i)});
    NothingFor(before, greeting, head, more, attempt, {Spliced(i)});
  }

  lemma NothingFor(before: seq<Delivery>, greeting: seq<Delivery>, head: seq<Delivery>, more: seq<Delivery>,
                   attempt: nat, origins: set<Origin>)
    requires From(greeting, Greeting(attempt)) && From(head, Attempt(attempt)) && From(more, Spliced(attempt))
    requires origins !! {Greeting(attempt), Attempt(attempt), Spliced(attempt)}
    ensures Gather(before + greeting + head + more, origins) == Gather(before, origins)
  {
    GatherFour(before, greeting, head, more, origins);
    GatherNone(greeting, origins);
    GatherNone(head, origins);
    GatherNone(more, origins);
    NothingAfter(Gather(before, origins), Gather(greeting, origins), Gather(head, origins), Gather(more, origins));
  }

  /** What the upstream of try i got: its rewritten head, or the start of it, and its share of the further bytes. */
  lemma {:induction false} WhatReached(log: seq<Delivery>, tries: seq<Try>, req: ClientRequest, rounds: nat -> Round,
                                       i: nat) returns (head: seq<Delivery>, more: seq<Delivery>)
    requires AllForwarded(log, tries, req, rounds) && i < |tries|
    ensures Reached(log, head, more, tries[i], i, req, rounds(i).upstream)
    decreases |tries|
  {
    var last := |tries| - 1;
    var before :| AllForwarded(before, tries[..last], req, rounds)
      && Forwards(before, log, last, req, rounds(last).upstream, tries[last].leased.auth, tries[last].outcome);
    if i == last {
      AllOfTries(before, tries[..last], req, rounds);
      head, more := OwnParts(before, log, tries[last], last, req, rounds(last).upstream);
    } else {
      head, more := WhatReached(before, tries[..last], req, rounds, i);
      OthersParts(before, log, last, req, rounds(last).upstream, tries[last].leased.auth, tries[last].outcome, i);
    }
  }

  lemma WrittenBytes(out: seq<Delivery>, origin: Origin, data: bytes, whole: bool)
    requires IsWritten(out, origin, data, whole)
    ensures Bytes(out) <= data && (whole ==> Bytes(out) == data)
  {
    assert out == [] + [out[0]];
    BytesPush([], out[0]);
  }

  /** Only the splice of a committed try carries any of the client's further bytes. */
  lemma PumpedIsCommitted(log: seq<Delivery>, tries: seq<Try>, req: ClientRequest, rounds: nat -> Round, i: nat)
    requires AllForwarded(log, tries, req, rounds) && i < |tries|
    ensures Pumped(log, i) <= rounds(i).upstream.more
    ensures Pumped(log, i) != [] ==> Splices(tries[i].outcome)
    ensures tries[i].outcome == Ok ==> Pumped(log, i) == rounds(i).upstream.more
  {
    var _, more := WhatReached(log, tries, req, rounds, i);
    if Splices(tries[i].outcome) {
      WrittenBytes(more, Spliced(i), rounds(i).upstream.more, tries[i].outcome == Ok);
    }
  }

  /**
   When a forwarded request's head got through to the upstream of try i, all the upstream reads of
   `Proxy-Authorization` is its own value exactly when nothing of the client's comes: in the head and in
   the further bytes that reached it. For a complete head that is: nothing is hidden in the head, and no
   line of that name is in those bytes.
   */
  lemma NoClientCredentialsUpstream(log: seq<Delivery>, tries: seq<Try>, req: ClientRequest, rounds: nat -> Round,
                                    i: nat)
    requires AllForwarded(log, tries, req, rounds) && i < |tries|
    requires Reaches(req, rounds(i).upstream) && rounds(i).upstream.requestWrite.None?
    ensures var onlyOwn :=
        HeaderValues(Stream(log, i), PROXY_AUTHORIZATION) == OwnValues(req.raw, OwnValue(tries[i].leased.auth));
      && (onlyOwn <==> NothingComes(req.raw, Pumped(log, i), PROXY_AUTHORIZATION))
      && (|req.raw| >= 2 && req.raw[|req.raw| - 2..] == CRLF ==>
           (onlyOwn <==> NothingHidden(req.raw, PROXY_AUTHORIZATION)
                         && FindNamed(TextLines(Pumped(log, i)), PROXY_AUTHORIZATION).None?))
  {
    var auth := tries[i].leased.auth;
    var head, more := WhatReached(log, tries, req, rounds, i);
    WrittenBytes(head, Attempt(i), Forwarded(req.raw, auth), true);
    OwnIsPresentable(auth);
    UpstreamReadsOnlyItsOwn(req.raw, Pumped(log, i), PROXY_AUTHORIZATION, OwnValue(auth));
    if |req.raw| >= 2 && req.raw[|req.raw| - 2..] == CRLF {
      CompleteHeadsAreApart(req.raw, Pumped(log, i), PROXY_AUTHORIZATION);
    }
  }

  /** A head whose write was cut shows no more than a whole one: with nothing hidden, its own value at most. */
  lemma CutHeadsShowNoMore(log: seq<Delivery>, tries: seq<Try>, req: ClientRequest, rounds: nat -> Round, i: nat)
    requires AllForwarded(log, tries, req, rounds) && i < |tries|
    requires Reaches(req, rounds(i).upstream) && rounds(i).upstream.requestWrite.Some?
    ensures Pumped(log, i) == []
    ensures NothingHidden(req.raw, PROXY_AUTHORIZATION) ==>
      |HeaderValues(Stream(log, i), PROXY_AUTHORIZATION)| <= if tries[i].leased.auth.Some? then 1 else 0
  {
    var auth := tries[i].leased.auth;
    var whole := Forwarded(req.raw, auth);
    var head, more := WhatReached(log, tries, req, rounds, i);
    WrittenBytes(head, Attempt(i), whole, false);
    assert Stream(log, i) == whole[..|Bytes(head)|];
    CutShowsNoMore(whole, |Bytes(head)|, PROXY_AUTHORIZATION);
    OwnIsPresentable(auth);
    NothingMore(req.raw, PROXY_AUTHORIZATION);
    UpstreamReadsOnlyItsOwn(req.raw, [], PROXY_AUTHORIZATION, OwnValue(auth));
    assert whole + [] == whole;
  }

  /** The entry is a try's negotiation, (the start of) its rewritten head, or further bytes of the client's. */
  ghost predicate IsSent(e: Delivery, t: Try, i: nat, req: ClientRequest, up: Upstream) {
    match e.origin
    case Greeting(j) => j == i && e.data == up.greeting
    case Attempt(j) => j == i && Reaches(req, up) && e.data <= Forwarded(req.raw, t.leased.auth)
    case Spliced(j) => j == i && Splices(t.outcome) && e.data <= up.more
    case Local => false
  }

  lemma PartIsSent(before: seq<Delivery>, after: seq<Delivery>, t: Try, i: nat, req: ClientRequest, up: Upstream,
                   k: nat)
    requires Forwards(before, after, i, req, up, t.leased.auth, t.outcome) && k < |after|
    ensures if k < |before| then after[k] == before[k] else IsSent(after[k], t, i, req, up)
  {
    var greeting, head, more :| SendsParts(before, after, greeting, head, more, i, req, up, t.leased.auth, t.outcome);
    if k >= |before| {
      var e := after[k];
      assert e in greeting || e in head || e in more;
    }
  }

  /** Upstreams are sent nothing else. */
  lemma {:induction false} SentUpstream(log: seq<Delivery>, tries: seq<Try>, req: ClientRequest,
                                        rounds: nat -> Round, k: nat) returns (i: nat)
    requires AllForwarded(log, tries, req, rounds) && k < |log|
    ensures i < |tries| && IsSent(log[k], tries[i], i, req, rounds(i).upstream)
    decreases |tries|
  {
    var last := |tries| - 1;
    var before :| AllForwarded(before, tries[..last], req, rounds)
      && Forwards(before, log, last, req, rounds(last).upstream, tries[last].leased.auth, tries[last].outcome);
    PartIsSent(before, log, tries[last], last, req, rounds(last).upstream, k);
    if k < |before| {
      i := SentUpstream(before, tries[..last], req, rounds, k);
    } else {
      i := last;
    }
  }

  /** After a try that ended well the stream is the rewritten head and all the client wrote after its first. */
  lemma StreamOfOk(log: seq<Delivery>, tries: seq<Try>, req: ClientRequest, rounds: nat -> Round, i: nat)
    requires AllForwarded(log, tries, req, rounds) && i < |tries| && tries[i].outcome == Ok
    requires req.frontend == HttpForward
    ensures Stream(log, i) == Forwarded(req.raw, tries[i].leased.auth) + rounds(i).upstream.more
  {
    var head, more := WhatReached(log, tries, req, rounds, i);
    WrittenBytes(head, Attempt(i), Forwarded(req.raw, tries[i].leased.auth), true);
    WrittenBytes(more, Spliced(i), rounds(i).upstream.more, true);
  }

  // ----- A second request on the connection -----

  /** The lines `GET / HTTP/1.1` and `Proxy-Authorization: Basic x`, and the end of the head. */
  const KEPT: bytes := PlainHead([71, 69, 84, 32, 47, 32, 72, 84, 84, 80, 47, 49, 46, 49], PROXY_AUTHORIZATION, BASIC_X)

  lemma KeptIsRead()
    ensures HeaderValues(Forwarded(KEPT, None), PROXY_AUTHORIZATION) == []
    ensures HeaderValues(Forwarded(KEPT, None) + KEPT, PROXY_AUTHORIZATION) == [BASIC_X]
  {
    var first: bytes := [71, 69, 84, 32, 47, 32, 72, 84, 84, 80, 47, 49, 46, 49];
    assert |first| < |PROXY_AUTHORIZATION|;
    SecondHeadIsRead(first, PROXY_AUTHORIZATION, BASIC_X);
  }

  lemma KeptIsClean()
    ensures CleanHead(KEPT)
  {
    var first: bytes := [71, 69, 84, 32, 47, 32, 72, 84, 84, 80, 47, 49, 46, 49];
    PlainHeadIsClean(first, PROXY_AUTHORIZATION, BASIC_X);
  }

  /**
   A client that sends that head twice on one connection. The first is clean and is stripped; the second
   goes to the upstream as it is, and the client's secret is all that it reads.
   */
  lemma SecondHeadReachesUpstream(t: Try, req: ClientRequest, rounds: nat -> Round) returns (log: seq<Delivery>)
    requires req.frontend == HttpForward && req.raw == KEPT && t.outcome == Ok && t.leased.auth.None?
    requires Reaches(req, rounds(0).upstream) && rounds(0).upstream.requestWrite.None?
    requires rounds(0).upstream.more == KEPT
    ensures AllForwarded(log, [t], req, rounds) && CleanHead(req.raw)
    ensures HeaderValues(Forwarded(req.raw, None), PROXY_AUTHORIZATION) == []
    ensures HeaderValues(Stream(log, 0), PROXY_AUTHORIZATION) == [BASIC_X]
  {
    var up := rounds(0).upstream;
    var head := Forwarded(KEPT, None);
    var greeting, asked, more := [Delivery(Greeting(0), up.greeting)], [Delivery(Attempt(0), head)],
                                 [Delivery(Spliced(0), KEPT)];
    log := [] + greeting + asked + more;
    assert head[..|head|] == head && KEPT[..|KEPT|] == KEPT;
    assert SendsParts([], log, greeting, asked, more, 0, req, up, None, Ok);
    OneMoreForwarded([], log, [], t, req, rounds);
    assert [] + [t] == [t];
    StreamOfOk(log, [t], req, rounds, 0);
    KeptIsRead();
    KeptIsClean();
  }
}
