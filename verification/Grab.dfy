/**
 Gathering without checking (`grab_task` in `src/broker.rs`).

 The providers' batches arrive in some order; `takes` is how many proxies the consumer takes before it
 goes away. Parsing a host and looking up its country are functions of the host.
 */
module Grab {
  import opened Wrappers
  import opened Proxies
  import Pools

  datatype Candidate = Candidate(host: string, port: nat)

  /** What a host resolves to locally, and where that is. */
  datatype Lookup = Lookup(parse: string -> Option<Ip>, country: Ip -> Option<string>)

  /** The proxy with its country attached. */
  function Attached(lookup: Lookup, a: Address): Proxy {
    Fresh(a).(country := lookup.country(a.host))
  }

  predicate Wanted(lookup: Lookup, a: Address, countries: Option<set<string>>) {
    Pools.CountryOk(Attached(lookup, a), countries)
  }

  function AddressOf(lookup: Lookup, c: Candidate): Option<Address> {
    match lookup.parse(c.host)
    case None => None
    case Some(ip) => Some(Address(ip, c.port))
  }

  /** All addresses there are, each where it is first seen. */
  function Distinct(lookup: Lookup, cands: seq<Candidate>): seq<Address> {
    if cands == [] then []
    else
      var init, a := Distinct(lookup, cands[..|cands| - 1]), AddressOf(lookup, cands[|cands| - 1]);
      if a.None? || a.value in init then init else init + [a.value]
  }

  function Filtered(lookup: Lookup, addrs: seq<Address>, countries: Option<set<string>>): seq<Address> {
    if addrs == [] then []
    else
      var init, a := Filtered(lookup, addrs[..|addrs| - 1], countries), addrs[|addrs| - 1];
      if Wanted(lookup, a, countries) then init + [a] else init
  }

  /** What there is to send: the distinct addresses in the wanted countries. */
  function Available(lookup: Lookup, cands: seq<Candidate>, countries: Option<set<string>>): seq<Address> {
    Filtered(lookup, Distinct(lookup, cands), countries)
  }

  function Cap(limit: Option<nat>, takes: nat): nat {
    if limit.Some? then Min(limit.value, takes) else takes
  }

  /** The first so many, as far as there are. */
  function Prefix(s: seq<Address>, n: nat): seq<Address> {
    s[..Min(n, |s|)]
  }

  class Grabber {
    const lookup: Lookup
    const limit: Option<nat>
    const countries: Option<set<string>>
    /** How many sends the consumer takes. */
    const takes: nat
    var seen: set<Address>
    var sent: nat
    var out: seq<Address>

    constructor (lookup: Lookup, limit: Option<nat>, countries: Option<set<string>>, takes: nat)
      ensures this.lookup == lookup && this.limit == limit && this.countries == countries && this.takes == takes
      ensures seen == {} && sent == 0 && out == []
    {
      this.lookup, this.limit, this.countries, this.takes := lookup, limit, countries, takes;
      seen, sent, out := {}, 0, [];
    }

    /** Everything up to here has been looked at. */
    ghost predicate After(cands: seq<Candidate>)
      reads this
    {
      && (forall a :: a in seen <==> a in Distinct(lookup, cands))
      && out == Available(lookup, cands, countries)
      && sent == |out| <= Cap(limit, takes)
    }

    /** One candidate; the task is done when the limit is reached or the consumer is gone. */
    method Take(cand: Candidate, ghost before: seq<Candidate>) returns (done: bool)
      requires After(before)
      modifies this`seen, this`sent, this`out
      ensures out == Prefix(Available(lookup, before + [cand], countries), Cap(limit, takes))
      ensures !done ==> After(before + [cand])
      ensures done ==> |out| == Cap(limit, takes)
    {
      AvailableStep(lookup, before, cand, countries);
      if limit.Some? && sent >= limit.value {
        return true;
      }
      var host := lookup.parse(cand.host);
      if host.None? {
        return false;
      }
      var a := Address(host.value, cand.port);
      if a in seen {
        return false;
      }
      seen := seen + {a};
      if !Pools.CountryOk(Attached(lookup, a), countries) {
        return false;
      }
      if sent >= takes {
        return true;
      }
      out := out + [a];
      sent := sent + 1;
      return false;
    }

    /** `grab_task`. */
    method Run(batches: seq<seq<Candidate>>)
      requires seen == {} && sent == 0 && out == []
      modifies this`seen, this`sent, this`out
      ensures out == Prefix(Available(lookup, Flat(batches), countries), Cap(limit, takes))
    {
      ghost var done: seq<Candidate> := [];
      for i := 0 to |batches|
        invariant done == Flat(batches[..i]) && After(done)
      {
        assert batches[..i + 1][..i] == batches[..i];
        var stopped := RunBatch(batches[i], done);
        done := done + batches[i];
        if stopped {
          FlatPrefix(batches, i + 1);
          FullStaysFull(lookup, done, Flat(batches), countries, Cap(limit, takes), out);
          return;
        }
      }
      assert batches[..|batches|] == batches;
    }

    method RunBatch(batch: seq<Candidate>, ghost before: seq<Candidate>) returns (stopped: bool)
      requires After(before)
      modifies this`seen, this`sent, this`out
      ensures out == Prefix(Available(lookup, before + batch, countries), Cap(limit, takes))
      ensures !stopped ==> After(before + batch)
      ensures stopped ==> |out| == Cap(limit, takes)
    {
      BatchStarts(before, batch);
      for i := 0 to |batch|
        invariant After(before + batch[..i])
      {
        BatchGoesOn(before, batch, i);
        var done := Take(batch[i], before + batch[..i]);
        if done {
          FullStaysFull(lookup, before + batch[..i + 1], before + batch, countries, Cap(limit, takes), out);
          return true;
        }
      }
      return false;
    }
  }

  lemma BatchStarts(before: seq<Candidate>, batch: seq<Candidate>)
    ensures before + batch[..0] == before && before + batch[..|batch|] == before + batch
  {
  }

  lemma BatchGoesOn(before: seq<Candidate>, batch: seq<Candidate>, i: nat)
    requires i < |batch|
    ensures before + batch[..i] + [batch[i]] == before + batch[..i + 1] <= before + batch
  {
  }

  function Flat(batches: seq<seq<Candidate>>): seq<Candidate> {
    if batches == [] then [] else Flat(batches[..|batches| - 1]) + batches[|batches| - 1]
  }

  lemma {:induction false} FlatPrefix(batches: seq<seq<Candidate>>, i: nat)
    requires i <= |batches|
    ensures Flat(batches[..i]) <= Flat(batches)
  {
    if i < |batches| {
      FlatPrefix(batches[..|batches| - 1], i);
      assert batches[..|batches| - 1][..i] == batches[..i];
    } else {
      assert batches[..i] == batches;
    }
  }

  lemma AvailableStep(lookup: Lookup, before: seq<Candidate>, cand: Candidate, countries: Option<set<string>>)
    ensures var a, all := AddressOf(lookup, cand), Distinct(lookup, before);
      && Distinct(lookup, before + [cand]) == (if a.None? || a.value in all then all else all + [a.value])
      && Available(lookup, before + [cand], countries)
         == if a.None? || a.value in all || !Wanted(lookup, a.value, countries)
            then Available(lookup, before, countries)
            else Available(lookup, before, countries) + [a.value]
  {
    assert (before + [cand])[..|before|] == before;
    var a, all := AddressOf(lookup, cand), Distinct(lookup, before);
    if a.Some? && a.value !in all {
      assert (all + [a.value])[..|all|] == all;
    }
  }

  /** More candidates only add at the end. */
  lemma {:induction false} MoreIsLater(lookup: Lookup, before: seq<Candidate>, after: seq<Candidate>,
                                       countries: Option<set<string>>)
    requires before <= after
    ensures Available(lookup, before, countries) <= Available(lookup, after, countries)
    decreases |after|
  {
    if |before| == |after| {
      assert before == after;
    } else {
      var init, last := after[..|after| - 1], after[|after| - 1];
      MoreIsLater(lookup, before, init, countries);
      AvailableStep(lookup, init, last, countries);
      assert init + [last] == after;
    }
  }

  /** Once so many have been sent, more candidates change nothing. */
  lemma FullStaysFull(lookup: Lookup, before: seq<Candidate>, after: seq<Candidate>, countries: Option<set<string>>,
                      n: nat, out: seq<Address>)
    requires before <= after && out == Prefix(Available(lookup, before, countries), n) && |out| == n
    ensures out == Prefix(Available(lookup, after, countries), n)
  {
    MoreIsLater(lookup, before, after, countries);
  }

  ghost predicate NoTwice(s: seq<Address>) {
    forall i, j :: 0 <= i < j < |s| ==> s[i] != s[j]
  }

  ghost predicate Among(lookup: Lookup, cands: seq<Candidate>, a: Address) {
    exists i :: 0 <= i < |cands| && AddressOf(lookup, cands[i]) == Some(a)
  }

  /** What is available: every address of a candidate in a wanted country, none twice. */
  lemma AvailableIsExact(lookup: Lookup, cands: seq<Candidate>, countries: Option<set<string>>)
    ensures NoTwice(Available(lookup, cands, countries))
    ensures forall a ::
      a in Available(lookup, cands, countries) <==> Wanted(lookup, a, countries) && Among(lookup, cands, a)
  {
    DistinctIsExact(lookup, cands);
    FilteredIsExact(lookup, Distinct(lookup, cands), countries);
  }

  lemma NoTwicePush(s: seq<Address>, a: Address)
    requires NoTwice(s) && a !in s
    ensures NoTwice(s + [a])
  {
  }

  lemma {:induction false} DistinctIsExact(lookup: Lookup, cands: seq<Candidate>)
    ensures NoTwice(Distinct(lookup, cands))
    ensures forall a :: a in Distinct(lookup, cands) <==> Among(lookup, cands, a)
  {
    if cands != [] {
      var n := |cands| - 1;
      var init, last := Distinct(lookup, cands[..n]), AddressOf(lookup, cands[n]);
      DistinctIsExact(lookup, cands[..n]);
      assert forall i :: 0 <= i < n ==> cands[..n][i] == cands[i];
      assert forall a :: Among(lookup, cands, a) <==> Among(lookup, cands[..n], a) || last == Some(a);
      if last.Some? && last.value !in init {
        NoTwicePush(init, last.value);
      }
    }
  }

  lemma {:induction false} FilteredIsExact(lookup: Lookup, addrs: seq<Address>, countries: Option<set<string>>)
    requires NoTwice(addrs)
    ensures NoTwice(Filtered(lookup, addrs, countries))
    ensures forall a :: a in Filtered(lookup, addrs, countries) <==> a in addrs && Wanted(lookup, a, countries)
  {
    if addrs != [] {
      var n := |addrs| - 1;
      FilteredIsExact(lookup, addrs[..n], countries);
      assert addrs == addrs[..n] + [addrs[n]] && addrs[n] !in addrs[..n];
      NoTwicePush(Filtered(lookup, addrs[..n], countries), addrs[n]);
    }
  }
}
