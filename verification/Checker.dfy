/**
 Checking one proxy (`check`, `check_one` and `types_passed` in `src/checker.rs`).

 What an attempt meets on the network is scripted: the environment says, attempt by attempt, whether
 the protocol worked, the answer was invalid, or which error came up.
 */
module Checker {
  import opened Wrappers
  import opened Proxies

  datatype Met = Works(rtt: real, level: Option<AnonLevel>) | Invalid | Fails(error: ProxyError)

  datatype RetryPolicy = RetryPolicy(maxTries: nat, retryOn: set<ProxyError>)

  /** The attempt as the proxy's record takes it. */
  function Reported(m: Met): Attempt {
    match m
    case Works(rtt, _) => Worked(rtt)
    case Invalid => Failed(BadResponse)
    case Fails(e) => Failed(e)
  }

  /** No attempt follows attempt i. */
  predicate StopsAt(script: nat -> Met, policy: RetryPolicy, i: nat) {
    var m := script(i);
    !(m.Fails? && m.error in policy.retryOn && i + 1 < policy.maxTries)
  }

  function ReportRun(p: Proxy, script: nat -> Met, n: nat): Proxy {
    if n == 0 then p else Report(ReportRun(p, script, n - 1), Reported(script(n - 1)))
  }

  function WithType(p: Proxy, proto: Proto, level: Option<AnonLevel>): Proxy {
    p.(types := p.types[proto := level])
  }

  /** The record after n attempts, the last of which may have confirmed the protocol. */
  function Checked(p: Proxy, proto: Proto, script: nat -> Met, n: nat): Proxy {
    Confirm(ReportRun(p, script, n), proto, if n > 0 then Some(script(n - 1)) else None)
  }

  function Confirm(p: Proxy, proto: Proto, last: Option<Met>): Proxy {
    if last.Some? && last.value.Works? then WithType(p, proto, last.value.level) else p
  }

  /** `n` is how many attempts are made: up to the first that none follows. */
  ghost predicate Attempts(script: nat -> Met, policy: RetryPolicy, n: nat) {
    && n <= policy.maxTries
    && (policy.maxTries > 0 ==> n > 0 && StopsAt(script, policy, n - 1) && GoesOn(script, policy, n - 1))
  }

  /** Each of the first n attempts is followed by another. */
  ghost predicate GoesOn(script: nat -> Met, policy: RetryPolicy, n: nat) {
    forall i: nat :: i < n ==> !StopsAt(script, policy, i)
  }

  /** The attempts end with one that works. */
  ghost predicate Succeeds(script: nat -> Met, policy: RetryPolicy) {
    exists n: nat :: Attempts(script, policy, n) && n > 0 && script(n - 1).Works?
  }

  lemma AttemptsAreDetermined(script: nat -> Met, policy: RetryPolicy, n: nat, m: nat)
    requires Attempts(script, policy, n) && Attempts(script, policy, m)
    ensures n == m
  {
    if policy.maxTries > 0 {
      assert StopsAt(script, policy, n - 1) && StopsAt(script, policy, m - 1);
      assert GoesOn(script, policy, n - 1) && GoesOn(script, policy, m - 1);
    }
  }

  /** `check_one`: every attempt is on the record, and the type is added exactly when the last one worked. */
  method CheckOne(proxy: Proxy, proto: Proto, policy: RetryPolicy, script: nat -> Met) returns (ok: bool, p: Proxy)
    ensures IsChecked(p, proxy, proto, script, policy) && (ok <==> Succeeds(script, policy))
  {
    p := proxy;
    for i := 0 to policy.maxTries
      invariant p == ReportRun(proxy, script, i) && GoesOn(script, policy, i)
    {
      var stops;
      stops, ok, p := Attempt(proxy, proto, policy, script, i, p);
      if stops {
        Ends(p, proxy, proto, script, policy, i + 1);
        return;
      }
      GoesOnce(script, policy, i);
    }
    // Only a policy without attempts gets here.
    LastOneStops(script, policy);
    Ends(p, proxy, proto, script, policy, 0);
    ok := false;
  }

  lemma GoesOnce(script: nat -> Met, policy: RetryPolicy, i: nat)
    requires GoesOn(script, policy, i) && !StopsAt(script, policy, i)
    ensures GoesOn(script, policy, i + 1)
  {
  }

  /** The last attempt allowed always stops. */
  lemma LastOneStops(script: nat -> Met, policy: RetryPolicy)
    requires GoesOn(script, policy, policy.maxTries)
    ensures policy.maxTries == 0
  {
    assert policy.maxTries > 0 ==> StopsAt(script, policy, policy.maxTries - 1);
  }

  /** The record after all its attempts. */
  ghost predicate IsChecked(p: Proxy, proxy: Proxy, proto: Proto, script: nat -> Met, policy: RetryPolicy) {
    exists n: nat :: Attempts(script, policy, n) && p == Checked(proxy, proto, script, n)
  }

  lemma Ends(p: Proxy, proxy: Proxy, proto: Proto, script: nat -> Met, policy: RetryPolicy, n: nat)
    requires Attempts(script, policy, n) && p == Checked(proxy, proto, script, n)
    ensures IsChecked(p, proxy, proto, script, policy)
    ensures Succeeds(script, policy) <==> n > 0 && script(n - 1).Works?
  {
    Determined(script, policy, n);
  }

  /** Whether the attempts succeed is what the last of them says. */
  lemma Determined(script: nat -> Met, policy: RetryPolicy, n: nat)
    requires Attempts(script, policy, n)
    ensures Succeeds(script, policy) <==> n > 0 && script(n - 1).Works?
  {
    forall m | Attempts(script, policy, m) ensures m == n {
      AttemptsAreDetermined(script, policy, m, n);
    }
  }

  /** One attempt: recorded, and then whether it is the last one. */
  method Attempt(ghost proxy: Proxy, proto: Proto, policy: RetryPolicy, script: nat -> Met, i: nat, before: Proxy)
    returns (stops: bool, ok: bool, p: Proxy)
    requires before == ReportRun(proxy, script, i)
    ensures stops == StopsAt(script, policy, i) && ok == script(i).Works?
    ensures p == if stops then Checked(proxy, proto, script, i + 1) else ReportRun(proxy, script, i + 1)
  {
    var met := script(i);
    p := Record(before, met);
    RunNext(proxy, script, i);
    match met {
      case Works(_, level) =>
        p := WithType(p, proto, level);
        return true, true, p;
      case Invalid =>
        return true, false, p;
      case Fails(e) =>
        return !(e in policy.retryOn && i + 1 < policy.maxTries), false, p;
    }
  }

  lemma RunNext(p: Proxy, script: nat -> Met, i: nat)
    ensures ReportRun(p, script, i + 1) == Report(ReportRun(p, script, i), Reported(script(i)))
  {
  }

  /** The `record_attempt` of each outcome. */
  method Record(p: Proxy, met: Met) returns (q: Proxy)
    ensures q == Report(p, Reported(met))
  {
    match met
    case Works(rtt, _) => q := p.Recorded(Some(rtt), None);
    case Invalid => q := p.Recorded(None, Some(BadResponse));
    case Fails(e) => q := p.Recorded(None, Some(e));
  }

  /** Every attempt is one request, and one error or one runtime. */
  lemma {:induction false} RunIsAccounted(p: Proxy, script: nat -> Met, n: nat)
    requires Balanced(p)
    ensures var q := ReportRun(p, script, n);
      Balanced(q) && q.requests == p.requests + n && q.types == p.types && q.addr == p.addr
  {
    if n > 0 {
      RunIsAccounted(p, script, n - 1);
      ReportKeepsBalance(ReportRun(p, script, n - 1), Reported(script(n - 1)));
    }
  }

  // ----- All protocols -----

  /** What each protocol's attempts meet. */
  type Scripts = Proto -> (nat -> Met)

  ghost predicate Confirmed(proto: Proto, scripts: Scripts, policy: RetryPolicy) {
    Succeeds(scripts(proto), policy)
  }

  /** The most attempts that k protocols can take. */
  function Budget(k: nat, policy: RetryPolicy): nat {
    if k == 0 then 0 else Budget(k - 1, policy) + policy.maxTries
  }

  /** `check` after the DNS blocklist: each protocol in turn, whatever became of the ones before. */
  method CheckAll(proxy: Proxy, protos: seq<Proto>, policy: RetryPolicy, scripts: Scripts)
    returns (any: bool, p: Proxy)
    requires Balanced(proxy)
    ensures Balanced(p) && p.addr == proxy.addr && p.requests >= proxy.requests
    ensures p.requests <= proxy.requests + Budget(|protos|, policy)
    ensures forall t :: t in p.types <==> t in proxy.types || (t in protos && Confirmed(t, scripts, policy))
    ensures any <==> exists t :: t in protos && Confirmed(t, scripts, policy)
  {
    any, p := false, proxy;
    for k := 0 to |protos|
      invariant Balanced(p) && p.addr == proxy.addr && proxy.requests <= p.requests
      invariant p.requests <= proxy.requests + Budget(k, policy)
      invariant forall t :: t in p.types <==> t in proxy.types || (t in protos[..k] && Confirmed(t, scripts, policy))
      invariant any <==> exists t :: t in protos[..k] && Confirmed(t, scripts, policy)
    {
      var proto := protos[k];
      assert protos[..k + 1] == protos[..k] + [proto];
      var ok, q := CheckNext(p, proto, policy, scripts);
      any := any || ok;
      p := q;
    }
    assert protos[..|protos|] == protos;
  }

  method CheckNext(p: Proxy, proto: Proto, policy: RetryPolicy, scripts: Scripts) returns (ok: bool, q: Proxy)
    requires Balanced(p)
    ensures Balanced(q) && q.addr == p.addr && p.requests <= q.requests <= p.requests + policy.maxTries
    ensures ok <==> Confirmed(proto, scripts, policy)
    ensures q.types.Keys == p.types.Keys + if ok then {proto} else {}
  {
    ok, q := CheckOne(p, proto, policy, scripts(proto));
    ghost var n: nat :| Attempts(scripts(proto), policy, n) && q == Checked(p, proto, scripts(proto), n);
    Determined(scripts(proto), policy, n);
    RunIsAccounted(p, scripts(proto), n);
  }

  // ----- The type filter -----

  datatype TypeSpec = TypeSpec(proto: Proto, levels: Option<set<AnonLevel>>)

  type Requested = map<Proto, Option<set<AnonLevel>>>

  /** Collected into a map: of two entries for a protocol the later counts. */
  function Collect(specs: seq<TypeSpec>): Requested {
    if specs == [] then map[]
    else Collect(specs[..|specs| - 1])[specs[|specs| - 1].proto := specs[|specs| - 1].levels]
  }

  /** Only plain HTTP has an anonymity level. */
  predicate ChecksLevel(proto: Proto) {
    proto == Http
  }

  predicate Matches(proto: Proto, level: Option<AnonLevel>, requested: Requested, strict: bool) {
    if proto !in requested || requested[proto].None? || requested[proto].value == {} then true
    else if !ChecksLevel(proto) then strict
    else level.Some? && level.value in requested[proto].value
  }

  ghost predicate SomeMatches(p: Proxy, requested: Requested, strict: bool) {
    exists t :: t in p.types && Matches(t, p.types[t], requested, strict)
  }

  /**
   `types_passed`: in either mode a proxy passes when some confirmed type matches what was asked for;
   strict mode also takes the types that do not match away.
   */
  method TypesPassed(specs: seq<TypeSpec>, strict: bool, proxy: Proxy) returns (ok: bool, p: Proxy)
    ensures ok <==> specs == [] || SomeMatches(proxy, Collect(specs), strict)
    ensures p == if specs == [] || !strict then proxy
                 else proxy.(types := map t | t in proxy.types && Matches(t, proxy.types[t], Collect(specs), strict)
                                        :: proxy.types[t])
    // In strict mode what is left afterwards matches, all of it.
    ensures strict && specs != [] ==> (ok <==> p.IsWorking())
  {
    p := proxy;
    if specs == [] {
      return true, p;
    }
    var requested := Collect(specs);
    var left, toRemove := proxy.types.Keys, {};
    while left != {}
      invariant left <= proxy.types.Keys && toRemove <= proxy.types.Keys
      invariant !strict ==> toRemove == {}
      invariant !strict ==>
        forall t :: t in proxy.types && t !in left ==> !Matches(t, proxy.types[t], requested, strict)
      invariant strict ==>
        forall t :: t in proxy.types && t !in left ==>
          (t in toRemove <==> !Matches(t, proxy.types[t], requested, strict))
      invariant toRemove !! left
      decreases |left|
    {
      var t :| t in left;
      if Matches(t, proxy.types[t], requested, strict) {
        if !strict {
          return true, p;
        }
      } else if strict {
        toRemove := toRemove + {t};
      }
      left := left - {t};
    }
    p := p.(types := p.types - toRemove);
    ok := strict && p.types != map[];
    if strict {
      KeptTypes(proxy, requested, toRemove);
    } else {
      assert p.types == proxy.types;
    }
  }

  /** Taking the types away that do not match leaves those that do. */
  lemma KeptTypes(proxy: Proxy, requested: Requested, removed: set<Proto>)
    requires forall t :: t in proxy.types ==> (t in removed <==> !Matches(t, proxy.types[t], requested, true))
    ensures var kept := proxy.types - removed;
      && kept == (map t | t in proxy.types && Matches(t, proxy.types[t], requested, true) :: proxy.types[t])
      && (kept != map[] <==> kept.Keys != {})
      && (kept != map[] <==> SomeMatches(proxy, requested, true))
  {
    var kept := proxy.types - removed;
    assert forall t :: t in kept <==> t in proxy.types && Matches(t, proxy.types[t], requested, true);
    assert kept == map[] <==> kept.Keys == {};
  }
}
