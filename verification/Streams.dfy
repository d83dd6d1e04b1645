/**
 What an upstream reads of a connection: the rewritten head (`strip_header`, `inject_header`), and then the
 client's further bytes as they come (`copy_bidirectional`); `src/server.rs`.

 The head is rewritten once. So the header that was stripped from it can come again: hidden in the head
 behind a bare LF, on a line that the end of the head cuts, or in a later head on the same connection.
 */
module Streams {
  import opened Wrappers
  import opened Heads
  import opened BareLf

  /** The values of all lines of that name. */
  function Values(lines: seq<bytes>, name: bytes): seq<bytes> {
    if lines == [] then []
    else (if Named(lines[0], name) then [Trim(lines[0][|name| + 1..])] else []) + Values(lines[1..], name)
  }

  /** `header_value`, but all of them. */
  function HeaderValues(raw: bytes, name: bytes): seq<bytes> {
    var lines := TextLines(raw);
    if lines == [] then [] else Values(lines[1..], name)
  }

  lemma {:induction false} FirstValue(lines: seq<bytes>, name: bytes)
    ensures FindNamed(lines, name) == if Values(lines, name) == [] then None else Some(Values(lines, name)[0])
  {
    if lines != [] && !Named(lines[0], name) {
      FirstValue(lines[1..], name);
      assert Values(lines, name) == Values(lines[1..], name);
    }
  }

  lemma HeaderValueIsFirst(raw: bytes, name: bytes)
    ensures HeaderValue(raw, name)
         == if HeaderValues(raw, name) == [] then None else Some(HeaderValues(raw, name)[0])
  {
    if TextLines(raw) != [] {
      FirstValue(TextLines(raw)[1..], name);
    }
  }

  lemma Group(a: seq<bytes>, b: seq<bytes>, c: seq<bytes>)
    ensures a + (b + c) == a + b + c
  {
  }

  lemma {:induction false} ValuesAppend(a: seq<bytes>, b: seq<bytes>, name: bytes)
    ensures Values(a + b, name) == Values(a, name) + Values(b, name)
  {
    if a == [] {
      assert a + b == b;
    } else {
      ValuesAppend(a[1..], b, name);
      assert (a + b)[1..] == a[1..] + b;
      Group(if Named(a[0], name) then [Trim(a[0][|name| + 1..])] else [], Values(a[1..], name), Values(b, name));
    }
  }

  // ----- The values in terms of CRLF lines -----

  /** The values in these terminated CRLF lines. */
  function ValuesIn(pieces: seq<bytes>, name: bytes): seq<bytes> {
    if pieces == [] then [] else Values(Inside(pieces[0]), name) + ValuesIn(pieces[1..], name)
  }

  lemma {:induction false} ValuesOfJoin(init: seq<bytes>, tail: bytes, name: bytes)
    ensures Values(TextLines(Join(init + [tail])), name) == ValuesIn(init, name) + Values(TextLines(tail), name)
    decreases |init|
  {
    if init == [] {
      assert init + [tail] == [tail];
    } else {
      var rest := init[1..] + [tail];
      assert init + [tail] == [init[0]] + rest;
      JoinCons(init[0], rest);
      LinesInside(init[0], Join(rest));
      ValuesAppend(Inside(init[0]), TextLines(Join(rest)), name);
      ValuesOfJoin(init[1..], tail, name);
      Group(Values(Inside(init[0]), name), ValuesIn(init[1..], name), Values(TextLines(tail), name));
    }
  }

  lemma AfterFirstLine(inside: seq<bytes>, rest: seq<bytes>, name: bytes)
    requires inside != []
    ensures Values((inside + rest)[1..], name) == Values(inside[1..], name) + Values(rest, name)
  {
    assert (inside + rest)[1..] == inside[1..] + rest;
    ValuesAppend(inside[1..], rest, name);
  }

  /** All values in a head with a CRLF: first line, the other terminated lines, what follows the last CRLF. */
  lemma HeaderValuesOfLines(first: bytes, mid: seq<bytes>, tail: bytes, name: bytes)
    ensures HeaderValues(Join([first] + (mid + [tail])), name)
         == Values(Inside(first)[1..], name) + (ValuesIn(mid, name) + Values(TextLines(tail), name))
  {
    var rest := mid + [tail];
    JoinCons(first, rest);
    LinesInside(first, Join(rest));
    AfterFirstLine(Inside(first), TextLines(Join(rest)), name);
    ValuesOfJoin(mid, tail, name);
  }

  // ----- Stripping -----

  /** The terminated lines that stay. */
  function Remaining(mid: seq<bytes>, name: bytes): seq<bytes> {
    if mid == [] then []
    else (if Named(mid[0], name) then [] else [mid[0]]) + Remaining(mid[1..], name)
  }

  lemma {:induction false} KeptIsRemaining(mid: seq<bytes>, tail: bytes, name: bytes)
    ensures Kept(mid + [tail], name) == Remaining(mid, name) + [tail]
  {
    if mid == [] {
      assert mid + [tail] == [tail] && Remaining(mid, name) + [tail] == [tail];
    } else {
      var rest := mid[1..] + [tail];
      assert mid + [tail] == [mid[0]] + rest;
      KeptCons(mid[0], rest, name);
      KeptIsRemaining(mid[1..], tail, name);
      Group(if Named(mid[0], name) then [] else [mid[0]], Remaining(mid[1..], name), [tail]);
    }
  }

  /** What a line that stays has inside: nothing of that name. */
  ghost predicate HidesNothing(mid: seq<bytes>, name: bytes) {
    forall k :: 0 <= k < |mid| && !Named(mid[k], name) ==> Shown(mid[k], name).None?
  }

  lemma {:induction false} RemainingHideNothing(mid: seq<bytes>, name: bytes)
    ensures ValuesIn(Remaining(mid, name), name) == [] <==> HidesNothing(mid, name)
  {
    if mid != [] {
      RemainingHideNothing(mid[1..], name);
      FirstValue(Inside(mid[0]), name);
      HidesFrom(mid, name);
      var rest := Remaining(mid[1..], name);
      if Named(mid[0], name) {
        assert Remaining(mid, name) == rest;
      } else {
        assert Remaining(mid, name) == [mid[0]] + rest && ([mid[0]] + rest)[1..] == rest;
      }
    }
  }

  lemma HidesFrom(mid: seq<bytes>, name: bytes)
    requires mid != []
    ensures HidesNothing(mid, name)
      <==> (!Named(mid[0], name) ==> Shown(mid[0], name).None?) && HidesNothing(mid[1..], name)
  {
    forall k | 1 <= k < |mid| ensures mid[k] == mid[1..][k - 1] {
    }
    if (!Named(mid[0], name) ==> Shown(mid[0], name).None?) && HidesNothing(mid[1..], name) {
      forall k | 0 <= k < |mid| && !Named(mid[k], name) ensures Shown(mid[k], name).None? {
        assert k > 0 ==> !Named(mid[1..][k - 1], name);
      }
    }
  }

  // ----- The stream -----

  /**
   What can be looked at, in the client's head and in what it sends afterwards: no terminated line that
   is copied has such an LF line in it, nor has the first one after its own first LF; and none is in what
   follows the last CRLF of the head, with the later bytes.
   */
  ghost predicate NothingComes(raw: bytes, later: bytes, name: bytes) {
    var pieces := Split(raw);
    var n := |pieces| - 1;
    if n == 0 then HeaderValue(raw + later, name).None?
    else
      && ShownAfterFirst(pieces[0], name).None?
      && HidesNothing(pieces[1..n], name)
      && FindNamed(TextLines(pieces[n] + later), name).None?
  }

  /** The rewritten head: stripped, and with the upstream's own line, if it has one. */
  function Rewritten(raw: bytes, name: bytes, own: Option<bytes>): bytes {
    var stripped := StripFrom(raw, true, name);
    match own
    case None => stripped
    case Some(value) => InjectHeader(stripped, name + [COLON, 32] + value + CRLF)
  }

  /** What the upstream is to read: its own value, where there is a line to put it under. */
  function OwnValues(raw: bytes, own: Option<bytes>): seq<bytes> {
    if own.Some? && FirstCrLf(raw).Some? then [own.value] else []
  }

  ghost predicate Presentable(name: bytes, own: Option<bytes>) {
    own.Some? ==>
      && NoLf(name) && NoLf(own.value) && own.value != []
      && !IsSpace(own.value[0]) && !IsSpace(own.value[|own.value| - 1])
  }

  lemma {:induction false} JoinTail(init: seq<bytes>, last: bytes, later: bytes)
    ensures Join(init + [last]) + later == Join(init + [last + later])
    decreases |init|
  {
    if init == [] {
      assert init + [last] == [last] && init + [last + later] == [last + later];
    } else {
      var a, b := init[1..] + [last], init[1..] + [last + later];
      assert init + [last] == [init[0]] + a && init + [last + later] == [init[0]] + b;
      JoinCons(init[0], a);
      JoinCons(init[0], b);
      JoinTail(init[1..], last, later);
      assert init[0] + CRLF + Join(a) + later == init[0] + CRLF + (Join(a) + later);
    }
  }

  /** The line that is added, if any. */
  function Added(name: bytes, own: Option<bytes>): seq<bytes> {
    if own.Some? then [name + [COLON, 32] + own.value] else []
  }

  /** The pieces of the rewritten head. */
  lemma RewrittenPieces(raw: bytes, name: bytes, own: Option<bytes>, mid: seq<bytes>)
    requires |Split(raw)| > 1 && Presentable(name, own) && mid == Split(raw)[1..|Split(raw)| - 1]
    ensures var pieces := Split(raw);
      Rewritten(raw, name, own)
      == Join([pieces[0]] + ((Added(name, own) + Remaining(mid, name)) + [pieces[|pieces| - 1]]))
  {
    var pieces := Split(raw);
    var first, last, kept := pieces[0], pieces[|pieces| - 1], Remaining(mid, name);
    assert pieces == [first] + (mid + [last]);
    KeptIsRemaining(mid, last, name);
    KeptCons(first, mid + [last], name);
    StripRemovesExactlyTheNamedLines(raw, name);
    if own.Some? {
      var line := name + [COLON, 32] + own.value;
      HeaderLineHasNoLf(name, own.value);
      NoLfNoCrLf(line);
      InjectAddsOneLine(StripFrom(raw, true, name), line);
      assert ([first] + (kept + [last]))[1..] == kept + [last];
      JoinSplit(Rewritten(raw, name, own));
      Group([line], kept, [last]);
    } else {
      assert Added(name, own) + kept == kept;
    }
  }

  lemma {:induction false} ValuesInAppend(a: seq<bytes>, b: seq<bytes>, name: bytes)
    ensures ValuesIn(a + b, name) == ValuesIn(a, name) + ValuesIn(b, name)
  {
    if a == [] {
      assert a + b == b;
    } else {
      ValuesInAppend(a[1..], b, name);
      assert (a + b)[1..] == a[1..] + b;
      Group(Values(Inside(a[0]), name), ValuesIn(a[1..], name), ValuesIn(b, name));
    }
  }

  lemma AddedValue(name: bytes, own: Option<bytes>)
    requires Presentable(name, own)
    ensures ValuesIn(Added(name, own), name) == if own.Some? then [own.value] else []
  {
    if own.Some? {
      var line := name + [COLON, 32] + own.value;
      HeaderLineHasNoLf(name, own.value);
      InjectedIsShown(name, own.value);
      FirstValue(Inside(line), name);
      assert Inside(line) == [line];
      assert Added(name, own) == [line];
      OneValue(line, name);
    }
  }

  lemma OneValue(line: bytes, name: bytes)
    requires Inside(line) == [line]
    ensures |Values(Inside(line), name)| <= 1 && ValuesIn([line], name) == Values(Inside(line), name)
  {
    var none: seq<bytes> := [line][1..];
    assert none == [] && Values(none, name) == [] && ValuesIn(none, name) == [];
  }

  /** Around the upstream's own value there is nothing exactly when each of the parts has nothing. */
  lemma NothingAround(a: seq<bytes>, own: seq<bytes>, b: seq<bytes>, c: seq<bytes>)
    ensures a + ((own + b) + c) == own <==> a == [] && b == [] && c == []
  {
    if a + ((own + b) + c) == own {
      assert |a + ((own + b) + c)| == |a| + |own| + |b| + |c|;
    }
  }

  /**
   For every head, whatever its bytes, and everything the client sends after it: all the upstream reads
   of that name on the connection is its own value exactly when nothing of the client's comes.
   */
  lemma UpstreamReadsOnlyItsOwn(raw: bytes, later: bytes, name: bytes, own: Option<bytes>)
    requires Presentable(name, own)
    ensures HeaderValues(Rewritten(raw, name, own) + later, name) == OwnValues(raw, own)
      <==> NothingComes(raw, later, name)
  {
    var pieces := Split(raw);
    if |pieces| == 1 {
      UnbrokenIsCopied(raw, name, own);
      HeaderValueIsFirst(raw + later, name);
    } else {
      BrokenReads(raw, later, name, own);
    }
  }

  lemma UnbrokenIsCopied(raw: bytes, name: bytes, own: Option<bytes>)
    requires |Split(raw)| == 1
    ensures Rewritten(raw, name, own) == raw && FirstCrLf(raw).None?
  {
    assert FirstCrLf(raw).Some? ==> |Split(raw)| > 1;
  }

  /** The values of the parts, side by side. */
  function PartValues(first: bytes, mid: seq<bytes>, tail: bytes, name: bytes, own: seq<bytes>): seq<bytes> {
    Values(Inside(first)[1..], name) + ((own + ValuesIn(Remaining(mid, name), name)) + Values(TextLines(tail), name))
  }

  lemma StreamPieces(raw: bytes, later: bytes, name: bytes, own: Option<bytes>, first: bytes, mid: seq<bytes>,
                     last: bytes)
    requires Presentable(name, own) && Split(raw) == [first] + (mid + [last])
    ensures Rewritten(raw, name, own) + later
         == Join([first] + ((Added(name, own) + Remaining(mid, name)) + [last + later]))
  {
    var lines := Added(name, own) + Remaining(mid, name);
    assert Split(raw)[1..|Split(raw)| - 1] == mid;
    RewrittenPieces(raw, name, own, mid);
    Group([first], lines, [last]);
    Group([first], lines, [last + later]);
    JoinTail([first] + lines, last, later);
  }

  /** All an upstream reads: what the first line hides, its own value, what the others hide, what follows. */
  lemma StreamValues(raw: bytes, later: bytes, name: bytes, own: Option<bytes>, first: bytes, mid: seq<bytes>,
                     last: bytes)
    requires Presentable(name, own) && Split(raw) == [first] + (mid + [last])
    ensures HeaderValues(Rewritten(raw, name, own) + later, name)
         == PartValues(first, mid, last + later, name, if own.Some? then [own.value] else [])
  {
    StreamPieces(raw, later, name, own, first, mid, last);
    HeaderValuesOfLines(first, Added(name, own) + Remaining(mid, name), last + later, name);
    ValuesInAppend(Added(name, own), Remaining(mid, name), name);
    AddedValue(name, own);
  }

  lemma PartsHaveNothing(first: bytes, mid: seq<bytes>, tail: bytes, name: bytes, own: seq<bytes>)
    ensures PartValues(first, mid, tail, name, own) == own
      <==> ShownAfterFirst(first, name).None? && HidesNothing(mid, name) && FindNamed(TextLines(tail), name).None?
  {
    NothingInParts(first, mid, tail, name);
    NothingAround(Values(Inside(first)[1..], name), own, ValuesIn(Remaining(mid, name), name),
                  Values(TextLines(tail), name));
  }

  lemma BrokenReads(raw: bytes, later: bytes, name: bytes, own: Option<bytes>)
    requires Presentable(name, own) && |Split(raw)| > 1
    ensures HeaderValues(Rewritten(raw, name, own) + later, name) == OwnValues(raw, own)
      <==> NothingComes(raw, later, name)
  {
    var pieces := Split(raw);
    var n := |pieces| - 1;
    Parts(pieces);
    OwnIsPlaced(raw, own);
    StreamValues(raw, later, name, own, pieces[0], pieces[1..n], pieces[n]);
    PartsHaveNothing(pieces[0], pieces[1..n], pieces[n] + later, name, OwnValues(raw, own));
  }

  lemma OwnIsPlaced(raw: bytes, own: Option<bytes>)
    requires |Split(raw)| > 1
    ensures OwnValues(raw, own) == if own.Some? then [own.value] else []
  {
  }

  lemma Parts(pieces: seq<bytes>)
    requires |pieces| > 1
    ensures pieces == [pieces[0]] + (pieces[1..|pieces| - 1] + [pieces[|pieces| - 1]])
  {
  }

  lemma NothingInParts(first: bytes, mid: seq<bytes>, tail: bytes, name: bytes)
    ensures Values(Inside(first)[1..], name) == [] <==> ShownAfterFirst(first, name).None?
    ensures ValuesIn(Remaining(mid, name), name) == [] <==> HidesNothing(mid, name)
    ensures Values(TextLines(tail), name) == [] <==> FindNamed(TextLines(tail), name).None?
  {
    RemainingHideNothing(mid, name);
    FirstValue(Inside(first)[1..], name);
    FirstValue(TextLines(tail), name);
  }

  // ----- Complete heads, and cut ones -----

  lemma {:induction false} CompleteHeadEnds(raw: bytes)
    requires |raw| >= 2 && raw[|raw| - 2..] == CRLF
    ensures |Split(raw)| > 1 && Split(raw)[|Split(raw)| - 1] == []
    decreases |raw|
  {
    assert CrLfAt(raw, |raw| - 2);
    var p := FirstCrLf(raw).value;
    var rest := raw[p + 2..];
    SplitCons(raw, p);
    if rest != [] {
      assert |rest| >= 2 by {
        if |rest| == 1 {
          assert raw[p + 1] == LF && raw[|raw| - 2] == CR;
        }
      }
      assert rest[|rest| - 2..] == CRLF;
      CompleteHeadEnds(rest);
    } else {
      assert Split(rest) == [[]];
    }
  }

  /**
   For a head that ends in CRLF the two parts are apart: nothing is hidden in the head, and no line of
   that name is in what follows.
   */
  lemma CompleteHeadsAreApart(raw: bytes, later: bytes, name: bytes)
    requires |raw| >= 2 && raw[|raw| - 2..] == CRLF
    ensures NothingComes(raw, later, name)
      <==> NothingHidden(raw, name) && FindNamed(TextLines(later), name).None?
  {
    CompleteHeadEnds(raw);
    var pieces := Split(raw);
    var n := |pieces| - 1;
    assert pieces[n] + later == later;
    EmptyIsNotNamed(name);
    HiddenInTerminated(pieces, name);
  }

  /** Of the lines after the first only the last can be copied although it has the name. */
  lemma HiddenInTerminated(pieces: seq<bytes>, name: bytes)
    requires |pieces| > 1 && Shown(pieces[|pieces| - 1], name).None?
    ensures NoneHides(pieces[1..], name) <==> HidesNothing(pieces[1..|pieces| - 1], name)
  {
    var n := |pieces| - 1;
    var rest, mid := pieces[1..], pieces[1..n];
    forall k: nat | k < |mid| ensures mid[k] == rest[k] {
    }
    if NoneHides(rest, name) {
      forall k | 0 <= k < |mid| && !Named(mid[k], name) ensures Shown(mid[k], name).None? {
        assert Survives(rest, name, k);
      }
    }
    if HidesNothing(mid, name) {
      forall k: nat | Survives(rest, name, k) ensures Shown(rest[k], name).None? {
        assert k < |mid| ==> !Named(mid[k], name) && Shown(mid[k], name).None?;
      }
    }
  }

  /** The client sends nothing more: the condition is the one for the head alone. */
  lemma NothingMore(raw: bytes, name: bytes)
    ensures NothingComes(raw, [], name) <==> NothingHidden(raw, name)
  {
    var out := StripFrom(raw, true, name);
    UpstreamReadsOnlyItsOwn(raw, [], name, None);
    assert out + [] == out;
    HeaderValueIsFirst(out, name);
    StripHidesExactly(raw, name);
  }

  lemma NamedCut(line: bytes, n: nat, name: bytes)
    requires n <= |line| && Named(line[..n], name)
    ensures Named(line, name) && Named(DropCr(line), name)
  {
    assert line[..n][..|name|] == line[..|name|];
    if line[|line| - 1] == CR {
      assert DropCr(line)[..|name|] == line[..|name|];
    }
  }

  lemma ValuesOfOne(line: bytes, rest: seq<bytes>, name: bytes)
    ensures Values([line] + rest, name)
         == (if Named(line, name) then [Trim(line[|name| + 1..])] else []) + Values(rest, name)
  {
    assert ([line] + rest)[1..] == rest;
  }

  lemma AtMostOneLine(s: bytes, name: bytes)
    requires FirstLf(s).None?
    ensures |Values(TextLines(s), name)| == if Named(s, name) then 1 else 0
  {
    var none: seq<bytes> := [];
    if s != [] {
      ValuesOfOne(s, none, name);
      assert [s] + none == [s];
    }
  }

  lemma CutBefore(s: bytes, q: nat, n: nat)
    requires FirstLf(s) == Some(q) && n <= q
    ensures FirstLf(s[..n]).None? && s[..n] == s[..q][..n]
  {
  }

  lemma CutAfter(s: bytes, q: nat, n: nat)
    requires FirstLf(s) == Some(q) && q < n <= |s|
    ensures FirstLf(s[..n]) == Some(q) && s[..n][..q] == s[..q] && s[..n][q + 1..] == s[q + 1..][..n - q - 1]
  {
    FirstLfIs(s[..n], q);
  }

  lemma TextLinesCons(s: bytes, q: nat)
    requires FirstLf(s) == Some(q)
    ensures TextLines(s) == [DropCr(s[..q])] + TextLines(s[q + 1..])
  {
  }

  lemma {:induction false} CutLinesShowNoMore(s: bytes, n: nat, name: bytes)
    requires n <= |s|
    ensures |Values(TextLines(s[..n]), name)| <= |Values(TextLines(s), name)|
    decreases |s|
  {
    match FirstLf(s)
    case None =>
      AtMostOneLine(s, name);
      AtMostOneLine(s[..n], name);
      if Named(s[..n], name) {
        NamedCut(s, n, name);
      }
    case Some(q) =>
      var line := DropCr(s[..q]);
      TextLinesCons(s, q);
      ValuesOfOne(line, TextLines(s[q + 1..]), name);
      if n <= q {
        CutBefore(s, q, n);
        AtMostOneLine(s[..n], name);
        if Named(s[..n], name) {
          NamedCut(s[..q], n, name);
        }
      } else {
        CutAfter(s, q, n);
        TextLinesCons(s[..n], q);
        ValuesOfOne(line, TextLines(s[q + 1..][..n - q - 1]), name);
        CutLinesShowNoMore(s[q + 1..], n - q - 1, name);
      }
  }

  lemma SameFirstLine(s: bytes, rest: bytes, cut: bytes, cutRest: bytes, q: nat, name: bytes)
    requires FirstLf(s) == Some(q) && FirstLf(cut) == Some(q) && rest == s[q + 1..] && cutRest == cut[q + 1..]
    requires |Values(TextLines(cutRest), name)| <= |Values(TextLines(rest), name)|
    ensures |HeaderValues(cut, name)| <= |HeaderValues(s, name)|
  {
    AfterLf(s, q, name);
    AfterLf(cut, q, name);
  }

  lemma CutLines(s: bytes, cut: bytes, n: nat, name: bytes)
    requires n <= |s| && cut == s[..n]
    ensures |Values(TextLines(cut), name)| <= |Values(TextLines(s), name)|
  {
    CutLinesShowNoMore(s, n, name);
  }

  lemma CutRest(s: bytes, q: nat, n: nat, name: bytes)
    requires FirstLf(s) == Some(q) && q < n <= |s|
    ensures FirstLf(s[..n]) == Some(q)
    ensures |Values(TextLines(s[..n][q + 1..]), name)| <= |Values(TextLines(s[q + 1..]), name)|
  {
    CutAfter(s, q, n);
    CutLines(s[q + 1..], s[..n][q + 1..], n - q - 1, name);
  }

  lemma FirstLfOfCut(s: bytes, n: nat)
    requires n <= |s| && FirstLf(s[..n]).Some?
    ensures FirstLf(s) == FirstLf(s[..n])
  {
    FirstLfIs(s, FirstLf(s[..n]).value);
  }

  /** A write that is cut shows the upstream no more of that name than the whole would have. */
  lemma CutShowsNoMore(s: bytes, n: nat, name: bytes)
    requires n <= |s|
    ensures |HeaderValues(s[..n], name)| <= |HeaderValues(s, name)|
  {
    if FirstLf(s[..n]).None? {
      LoneLine(s[..n], name);
    } else {
      FirstLfOfCut(s, n);
      var q := FirstLf(s).value;
      CutRest(s, q, n, name);
      SameFirstLine(s, s[q + 1..], s[..n], s[..n][q + 1..], q, name);
    }
  }

  lemma LoneLine(s: bytes, name: bytes)
    requires FirstLf(s).None?
    ensures HeaderValues(s, name) == []
  {
    if s != [] {
      assert TextLines(s) == [s];
    }
  }

  lemma AfterLf(s: bytes, q: nat, name: bytes)
    requires FirstLf(s) == Some(q)
    ensures HeaderValues(s, name) == Values(TextLines(s[q + 1..]), name)
  {
    TextLinesCons(s, q);
    Rest(DropCr(s[..q]), TextLines(s[q + 1..]));
  }

  // ----- A head that is cut -----

  /** A head cut at the reader's cap, inside the header's line: the line is copied, not stripped. */
  lemma CutHeadIsCopied(first: bytes, name: bytes, value: bytes)
    requires NoLf(first) && NoLf(name) && NoLf(value)
    requires value != [] && !IsSpace(value[0]) && !IsSpace(value[|value| - 1])
    ensures var raw := first + CRLF + (name + [COLON, 32] + value);
      Rewritten(raw, name, None) == raw && HeaderValues(raw, name) == [value]
  {
    var line := name + [COLON, 32] + value;
    var raw := first + CRLF + line;
    var mid: seq<bytes> := [];
    HeaderLineHasNoLf(name, value);
    NoLfNoCrLf(line);
    NoLfNoCrLf(first);
    SplitPrefixed(first, line);
    assert Split(line) == [line] && [first] + [line] == [first] + (mid + [line]);
    StripRemovesExactlyTheNamedLines(raw, name);
    assert [first, line][1..] == [line] && Stripped([first, line], name) == [first, line];
    JoinSplit(raw);
    HeaderValuesOfLines(first, mid, line, name);
    LineValue(name, value);
    LoneValue(line, name);
  }

  lemma LoneValue(line: bytes, name: bytes)
    requires NoLf(line) && line != []
    ensures TextLines(line) == [line] == Inside(line)
  {
  }

  // ----- A second head -----

  /** A request line, that header, and the end of the head. */
  function PlainHead(first: bytes, name: bytes, value: bytes): bytes {
    first + CRLF + (name + [COLON, 32] + value + CRLF + CRLF)
  }

  lemma PlainPieces(first: bytes, name: bytes, value: bytes)
    requires NoLf(first) && NoLf(name) && NoLf(value)
    ensures var line := name + [COLON, 32] + value;
      Split(PlainHead(first, name, value)) == [first] + ([line, []] + [[]])
  {
    var line := name + [COLON, 32] + value;
    var end: seq<bytes> := [[], []];
    HeaderLineHasNoLf(name, value);
    NoLfNoCrLf(line);
    NoLfNoCrLf(first);
    assert Split([]) == [[]];
    SplitPrefixed([], []);
    assert [] + CRLF + [] == CRLF;
    SplitPrefixed(line, CRLF);
    SplitPrefixed(first, line + CRLF + CRLF);
    assert [line] + end == [line, []] + [[]];
  }

  lemma PlainJoin(first: bytes, name: bytes, value: bytes)
    requires NoLf(first) && NoLf(name) && NoLf(value)
    ensures PlainHead(first, name, value) == Join([first, name + [COLON, 32] + value, []] + [[]])
  {
    var line := name + [COLON, 32] + value;
    PlainPieces(first, name, value);
    JoinSplit(PlainHead(first, name, value));
    assert [first] + ([line, []] + [[]]) == [first, line, []] + [[]];
  }

  lemma NoValue(line: bytes, name: bytes)
    requires NoLf(line) && !Named(line, name)
    ensures Values(Inside(line), name) == []
  {
    var none: seq<bytes> := [];
    ValuesOfOne(line, none, name);
    assert Inside(line) == [line] == [line] + none;
  }

  lemma LineValue(name: bytes, value: bytes)
    requires NoLf(name) && NoLf(value) && value != [] && !IsSpace(value[0]) && !IsSpace(value[|value| - 1])
    ensures Values(Inside(name + [COLON, 32] + value), name) == [value]
  {
    var line := name + [COLON, 32] + value;
    HeaderLineHasNoLf(name, value);
    assert Inside(line) == [line];
    AddedValue(name, Some(value));
    OneValue(line, name);
    assert Added(name, Some(value)) == [line];
  }

  lemma PlainHeadIsClean(first: bytes, name: bytes, value: bytes)
    requires NoLf(first) && NoLf(name) && NoLf(value)
    ensures CleanHead(PlainHead(first, name, value))
  {
    var line := name + [COLON, 32] + value;
    var raw := PlainHead(first, name, value);
    HeaderLineHasNoLf(name, value);
    var n, m := |first|, |line|;
    assert |raw| == n + m + 6;
    assert forall i :: 0 <= i < n ==> raw[i] == first[i];
    assert forall i :: n + 2 <= i < n + 2 + m ==> raw[i] == line[i - n - 2];
    forall i | 0 <= i < |raw| && raw[i] == LF ensures i > 0 && raw[i - 1] == CR {
      assert i == n + 1 || i == n + m + 3 || i == n + m + 5;
    }
  }

  /** Read as later bytes, such a head shows its value. */
  lemma PlainHeadShows(first: bytes, name: bytes, value: bytes)
    requires NoLf(first) && !Named(first, name) && NoLf(name) && NoLf(value)
    requires value != [] && !IsSpace(value[0]) && !IsSpace(value[|value| - 1])
    ensures Values(TextLines(PlainHead(first, name, value)), name) == [value]
  {
    var line := name + [COLON, 32] + value;
    PlainJoin(first, name, value);
    ValuesOfJoin([first, line, []], [], name);
    ValuesInThree(first, line, name);
    NoValue(first, name);
    LineValue(name, value);
  }

  lemma ValuesInThree(a: bytes, b: bytes, name: bytes)
    ensures ValuesIn([a, b, []], name) == Values(Inside(a), name) + Values(Inside(b), name)
  {
    var end: seq<bytes> := [[]];
    var none: seq<bytes> := [];
    EmptyIsNotNamed(name);
    assert Inside([]) == end;
    FirstValue(end, name);
    assert end[1..] == none && ValuesIn(end, name) == [];
    assert [a, b, []][1..] == [b, []] && [b, []][1..] == end;
  }

  /** The same head twice on one connection: the first is stripped, the second is read. */
  lemma SecondHeadIsRead(first: bytes, name: bytes, value: bytes)
    requires NoLf(first) && !Named(first, name) && NoLf(name) && NoLf(value)
    requires value != [] && !IsSpace(value[0]) && !IsSpace(value[|value| - 1])
    ensures var raw := PlainHead(first, name, value);
      && HeaderValues(Rewritten(raw, name, None), name) == []
      && HeaderValues(Rewritten(raw, name, None) + raw, name) == [value]
  {
    var line := name + [COLON, 32] + value;
    var raw := PlainHead(first, name, value);
    var mid: seq<bytes> := [line, []];
    PlainPieces(first, name, value);
    NothingRemains(line, name);
    HeaderLineIsNamed(name, value);
    StreamValues(raw, [], name, None, first, mid, []);
    assert Rewritten(raw, name, None) + [] == Rewritten(raw, name, None);
    StreamValues(raw, raw, name, None, first, mid, []);
    assert [] + raw == raw;
    PlainHeadShows(first, name, value);
    assert Inside(first)[1..] == [];
  }

  lemma HeaderLineIsNamed(name: bytes, value: bytes)
    ensures Named(name + [COLON, 32] + value, name)
  {
    var line := name + [COLON, 32] + value;
    assert line[..|name|] == name && SameName(line[..|name|], name);
  }

  lemma NothingRemains(line: bytes, name: bytes)
    requires Named(line, name)
    ensures ValuesIn(Remaining([line, []], name), name) == []
  {
    var end: seq<bytes> := [[]];
    var none: seq<bytes> := [];
    assert [line, []][1..] == end && end[1..] == none;
    assert Remaining(none, name) == none && Remaining(end, name) == end && Remaining([line, []], name) == end;
    assert Inside([]) == end && ValuesIn(none, name) == [];
    EmptyIsNotNamed(name);
    FirstValue(end, name);
  }
}
