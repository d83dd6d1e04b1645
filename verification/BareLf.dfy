/**
 Heads with a bare LF (`strip_header` and `header_value` in `src/server.rs`).

 `strip_header` takes lines to end in CRLF, `header_value` in LF. So a line that `header_value` sees may
 be inside a line that `strip_header` passes over. What follows says, for every byte string, when the
 two still fit together.
 */
module BareLf {
  import opened Wrappers
  import opened Heads

  /** The LF lines inside one CRLF line; there is always a last one, maybe empty. */
  function Inside(line: bytes): (pieces: seq<bytes>)
    ensures pieces != []
    decreases |line|
  {
    match FirstLf(line)
    case None => [line]
    case Some(q) => [DropCr(line[..q])] + Inside(line[q + 1..])
  }

  /** What `header_value` finds in one CRLF line, or after the first LF line of it. */
  function Shown(line: bytes, name: bytes): Option<bytes> {
    FindNamed(Inside(line), name)
  }

  function ShownAfterFirst(line: bytes, name: bytes): Option<bytes> {
    FindNamed(Inside(line)[1..], name)
  }

  lemma {:induction false} FindNamedAppend(a: seq<bytes>, b: seq<bytes>, name: bytes)
    ensures FindNamed(a + b, name) == if FindNamed(a, name).Some? then FindNamed(a, name) else FindNamed(b, name)
  {
    if a == [] {
      assert a + b == b;
    } else {
      FindNamedAppend(a[1..], b, name);
      assert (a + b)[1..] == a[1..] + b;
    }
  }

  lemma FirstLfIs(s: bytes, q: nat)
    requires q < |s| && s[q] == LF && forall i :: 0 <= i < q ==> s[i] != LF
    ensures FirstLf(s) == Some(q)
  {
  }

  /** The LF lines of a CRLF line and what follows it. */
  lemma {:induction false} LinesInside(line: bytes, rest: bytes)
    ensures TextLines(line + CRLF + rest) == Inside(line) + TextLines(rest)
    decreases |line|
  {
    var s := line + CRLF + rest;
    match FirstLf(line)
    case None =>
      TextLine(line, rest);
    case Some(q) =>
      FirstLfIs(s, q);
      assert s[..q] == line[..q] && s[q + 1..] == line[q + 1..] + CRLF + rest;
      LinesInside(line[q + 1..], rest);
      assert TextLines(s) == [DropCr(line[..q])] + TextLines(s[q + 1..]);
  }

  lemma EmptyIsNotNamed(name: bytes)
    ensures FindNamed([[]], name) == None
  {
    assert FindNamed([[]][1..], name) == None;
  }

  /** A last line needs no terminator to be seen. */
  lemma {:induction false} LastLine(line: bytes, name: bytes)
    ensures FindNamed(TextLines(line), name) == Shown(line, name)
    decreases |line|
  {
    match FirstLf(line)
    case None =>
      if line == [] {
        EmptyIsNotNamed(name);
      }
    case Some(q) =>
      LastLine(line[q + 1..], name);
      FindNamedAppend([DropCr(line[..q])], TextLines(line[q + 1..]), name);
      FindNamedAppend([DropCr(line[..q])], Inside(line[q + 1..]), name);
  }

  lemma Rest(first: bytes, rest: seq<bytes>)
    ensures ([first] + rest)[1..] == rest
  {
  }

  lemma LastLineAfterFirst(line: bytes, name: bytes)
    ensures HeaderValue(line, name) == ShownAfterFirst(line, name)
  {
    match FirstLf(line)
    case None =>
      assert Inside(line)[1..] == [];
    case Some(q) =>
      var first, rest := DropCr(line[..q]), line[q + 1..];
      LastLine(rest, name);
      Rest(first, TextLines(rest));
      Rest(first, Inside(rest));
  }

  /** The first CRLF line in which there is something to find. */
  function FirstShown(pieces: seq<bytes>, name: bytes): Option<bytes> {
    if pieces == [] then None
    else if Shown(pieces[0], name).Some? then Shown(pieces[0], name)
    else FirstShown(pieces[1..], name)
  }

  lemma {:induction false} JoinShows(pieces: seq<bytes>, name: bytes)
    requires pieces != []
    ensures FindNamed(TextLines(Join(pieces)), name) == FirstShown(pieces, name)
  {
    if |pieces| == 1 {
      LastLine(pieces[0], name);
      assert FirstShown(pieces[1..], name) == None;
    } else {
      JoinShows(pieces[1..], name);
      LinesInside(pieces[0], Join(pieces[1..]));
      FindNamedAppend(Inside(pieces[0]), TextLines(Join(pieces[1..])), name);
    }
  }

  lemma AfterFirst(a: seq<bytes>, b: seq<bytes>, name: bytes)
    requires a != []
    ensures var found := FindNamed(a[1..], name);
      FindNamed((a + b)[1..], name) == if found.Some? then found else FindNamed(b, name)
  {
    assert (a + b)[1..] == a[1..] + b;
    FindNamedAppend(a[1..], b, name);
  }

  /** What `header_value` finds in a head, in terms of its CRLF lines. */
  lemma HeaderValueOfLines(pieces: seq<bytes>, name: bytes)
    requires pieces != []
    ensures HeaderValue(Join(pieces), name)
      == if ShownAfterFirst(pieces[0], name).Some? then ShownAfterFirst(pieces[0], name)
         else FirstShown(pieces[1..], name)
  {
    if |pieces| == 1 {
      LastLineAfterFirst(pieces[0], name);
    } else {
      var rest := Join(pieces[1..]);
      JoinShows(pieces[1..], name);
      LinesInside(pieces[0], rest);
      AfterFirst(Inside(pieces[0]), TextLines(rest), name);
    }
  }

  // ----- When stripping hides the header from `header_value` -----

  /** The line is copied: it is not a terminated line of that name. */
  predicate Survives(pieces: seq<bytes>, name: bytes, k: nat) {
    k < |pieces| && (k == |pieces| - 1 || !Named(pieces[k], name))
  }

  /** No line that is copied has such an LF line in it. */
  ghost predicate NoneHides(pieces: seq<bytes>, name: bytes) {
    forall k: nat :: Survives(pieces, name, k) ==> Shown(pieces[k], name).None?
  }

  lemma {:induction false} KeptShowsNothing(pieces: seq<bytes>, name: bytes)
    requires pieces != []
    ensures FirstShown(Kept(pieces, name), name).None? <==> NoneHides(pieces, name)
  {
    var rest := pieces[1..];
    if rest == [] {
      assert FirstShown(pieces[1..], name) == None;
      assert forall k: nat :: Survives(pieces, name, k) <==> k == 0;
    } else {
      KeptShowsNothing(rest, name);
      KeptCons(pieces[0], rest, name);
      assert pieces == [pieces[0]] + rest;
      assert ([pieces[0]] + Kept(rest, name))[1..] == Kept(rest, name);
      assert Survives(pieces, name, 0) <==> !Named(pieces[0], name);
      forall k: nat ensures Survives(rest, name, k) <==> Survives(pieces, name, k + 1) {
        assert k < |rest| ==> rest[k] == pieces[k + 1];
      }
      HidesLater(pieces, rest, name);
    }
  }

  lemma HidesLater(pieces: seq<bytes>, rest: seq<bytes>, name: bytes)
    requires pieces != [] && rest == pieces[1..]
    requires forall k: nat :: Survives(rest, name, k) <==> Survives(pieces, name, k + 1)
    ensures NoneHides(pieces, name)
      <==> (Survives(pieces, name, 0) ==> Shown(pieces[0], name).None?) && NoneHides(rest, name)
  {
    if NoneHides(pieces, name) {
      forall k: nat | Survives(rest, name, k) ensures Shown(rest[k], name).None? {
        assert Survives(pieces, name, k + 1) && rest[k] == pieces[k + 1];
      }
    }
    if (Survives(pieces, name, 0) ==> Shown(pieces[0], name).None?) && NoneHides(rest, name) {
      forall k: nat | Survives(pieces, name, k) ensures Shown(pieces[k], name).None? {
        assert k > 0 ==> Survives(rest, name, k - 1) && rest[k - 1] == pieces[k];
      }
    }
  }

  /** What a caller can look for before it forwards a head. */
  ghost predicate NothingHidden(raw: bytes, name: bytes) {
    var pieces := Split(raw);
    ShownAfterFirst(pieces[0], name).None? && (|pieces| > 1 ==> NoneHides(pieces[1..], name))
  }

  /** For every byte string: `strip_header` leaves `header_value` no such header to find iff nothing was hidden. */
  lemma StripHidesExactly(raw: bytes, name: bytes)
    ensures HeaderValue(StripFrom(raw, true, name), name).None? <==> NothingHidden(raw, name)
  {
    var pieces := Split(raw);
    var kept := Stripped(pieces, name);
    StripRemovesExactlyTheNamedLines(raw, name);
    HeaderValueOfLines(kept, name);
    if |pieces| == 1 {
      assert FirstShown(kept[1..], name) == None;
    } else {
      KeptShowsNothing(pieces[1..], name);
      assert kept[1..] == Kept(pieces[1..], name);
    }
  }

  /** Clean heads hide nothing. */
  lemma CleanHidesNothing(raw: bytes, name: bytes)
    requires CleanHead(raw)
    ensures NothingHidden(raw, name)
  {
    ForwardedWithoutCredentials(raw, name);
    StripHidesExactly(raw, name);
  }

  /**
   For every byte string with a CRLF: what reads back after strip and inject is the injected value, unless
   the first CRLF line has an LF line of that name in it, which comes before.
   */
  lemma InjectedReadsBack(raw: bytes, name: bytes, value: bytes)
    requires FirstCrLf(raw).Some? && NoLf(name) && NoLf(value)
    requires value != [] && !IsSpace(value[0]) && !IsSpace(value[|value| - 1])
    ensures var out := InjectHeader(StripFrom(raw, true, name), name + [COLON, 32] + value + CRLF);
      var before := ShownAfterFirst(Split(raw)[0], name);
      HeaderValue(out, name) == if before.Some? then before else Some(value)
  {
    var line := name + [COLON, 32] + value;
    var stripped := StripFrom(raw, true, name);
    var pieces := Split(raw);
    SplitCons(raw, FirstCrLf(raw).value);
    StripRemovesExactlyTheNamedLines(raw, name);
    var kept := Split(stripped);
    HeaderLineHasNoLf(name, value);
    NoLfNoCrLf(line);
    InjectAddsOneLine(stripped, line);
    var out := InjectHeader(stripped, line + CRLF);
    var after := [kept[0]] + ([line] + kept[1..]);
    JoinSplit(out);
    HeaderValueOfLines(after, name);
    assert after[1..] == [line] + kept[1..];
    InjectedIsShown(name, value);
  }

  lemma InjectedIsShown(name: bytes, value: bytes)
    requires NoLf(name) && NoLf(value)
    requires value != [] && !IsSpace(value[0]) && !IsSpace(value[|value| - 1])
    ensures Shown(name + [COLON, 32] + value, name) == Some(value)
  {
    var line := name + [COLON, 32] + value;
    HeaderLineHasNoLf(name, value);
    ValueOfInjected([[], line], name, value);
    assert [[], line][1..] == [line] == Inside(line);
  }

  // ----- A head that hides the header -----

  /** The start line, a line with a bare LF in it and the header after that, and the end of the head. */
  function HidingHead(first: bytes, before: bytes, name: bytes, value: bytes): bytes {
    first + CRLF + (before + [LF] + (name + [COLON, 32] + value) + CRLF + CRLF)
  }

  lemma BareLfIsNoCrLf(before: bytes, after: bytes)
    requires NoLf(before) && NoLf(after) && before != [] && before[|before| - 1] != CR
    ensures NoCrLf(before + [LF] + after)
  {
    var s := before + [LF] + after;
    assert s[|before| - 1] == before[|before| - 1];
    forall i: nat | i < |s| && i != |before| ensures s[i] != LF {
      assert s[i] == if i < |before| then before[i] else after[i - |before| - 1];
    }
  }

  lemma HidingPieces(first: bytes, before: bytes, name: bytes, value: bytes)
    requires NoLf(first) && NoLf(before) && NoLf(name) && NoLf(value)
    requires before != [] && before[|before| - 1] != CR
    ensures Split(HidingHead(first, before, name, value))
         == [first] + ([before + [LF] + (name + [COLON, 32] + value)] + [[], []])
  {
    var hidden := before + [LF] + (name + [COLON, 32] + value);
    HeaderLineHasNoLf(name, value);
    BareLfIsNoCrLf(before, name + [COLON, 32] + value);
    assert Split([]) == [[]];
    SplitPrefixed([], []);
    assert [] + CRLF + [] == CRLF;
    SplitPrefixed(hidden, CRLF);
    NoLfNoCrLf(first);
    SplitPrefixed(first, hidden + CRLF + CRLF);
  }

  lemma InsideCut(s: bytes, q: nat)
    requires FirstLf(s) == Some(q)
    ensures Inside(s) == [DropCr(s[..q])] + Inside(s[q + 1..])
  {
  }

  lemma CutAtLf(before: bytes, line: bytes)
    requires NoLf(before)
    ensures var s := before + [LF] + line;
      FirstLf(s) == Some(|before|) && s[..|before|] == before && s[|before| + 1..] == line
  {
    FirstLfIs(before + [LF] + line, |before|);
  }

  lemma InsideTwo(before: bytes, line: bytes)
    requires NoLf(before) && NoLf(line) && before != [] && before[|before| - 1] != CR
    ensures Inside(before + [LF] + line) == [before] + [line]
  {
    CutAtLf(before, line);
    InsideCut(before + [LF] + line, |before|);
    assert Inside(line) == [line];
  }

  lemma NotTheFirst(before: bytes, line: bytes, name: bytes)
    requires !Named(before, name)
    ensures FindNamed([before] + [line], name) == FindNamed([line], name)
  {
    assert ([before] + [line])[1..] == [line];
  }

  lemma HiddenIsShown(before: bytes, name: bytes, value: bytes)
    requires NoLf(before) && NoLf(name) && NoLf(value) && before != [] && before[|before| - 1] != CR
    requires value != [] && !IsSpace(value[0]) && !IsSpace(value[|value| - 1]) && !Named(before, name)
    ensures Shown(before + [LF] + (name + [COLON, 32] + value), name) == Some(value)
  {
    var line := name + [COLON, 32] + value;
    HeaderLineHasNoLf(name, value);
    InsideTwo(before, line);
    NotTheFirst(before, line, name);
    InjectedIsShown(name, value);
    assert Inside(line) == [line];
  }

  /** The header survives `strip_header`, and `header_value` finds it. */
  lemma HiddenHeaderSurvives(first: bytes, before: bytes, name: bytes, value: bytes)
    requires NoLf(first) && NoLf(before) && NoLf(name) && NoLf(value)
    requires before != [] && before[|before| - 1] != CR && !Named(before, name)
    requires !Named(before + [LF] + (name + [COLON, 32] + value), name)
    requires value != [] && !IsSpace(value[0]) && !IsSpace(value[|value| - 1])
    ensures var raw := HidingHead(first, before, name, value);
      StripFrom(raw, true, name) == raw && HeaderValue(raw, name) == Some(value)
  {
    var raw := HidingHead(first, before, name, value);
    var hidden := before + [LF] + (name + [COLON, 32] + value);
    HidingPieces(first, before, name, value);
    NothingToStrip(first, hidden, name);
    StripRemovesExactlyTheNamedLines(raw, name);
    JoinSplit(raw);
    HiddenIsShown(before, name, value);
    FirstShownIsHidden(first, hidden, name);
  }

  lemma NothingToStrip(first: bytes, hidden: bytes, name: bytes)
    requires !Named(hidden, name)
    ensures var pieces := [first] + ([hidden] + [[], []]); Stripped(pieces, name) == pieces
  {
    var end: seq<bytes> := [[], []];
    KeptCons([], [[]], name);
    assert [[]] + [[]] == end;
    KeptCons(hidden, end, name);
    KeptCons(first, [hidden] + end, name);
  }

  lemma FirstShownIsHidden(first: bytes, hidden: bytes, name: bytes)
    requires NoLf(first) && Shown(hidden, name).Some?
    ensures HeaderValue(Join([first] + ([hidden] + [[], []])), name) == Shown(hidden, name)
  {
    var rest: seq<bytes> := [hidden] + [[], []];
    HeaderValueOfLines([first] + rest, name);
    assert ([first] + rest)[1..] == rest;
    assert Inside(first)[1..] == [];
  }

  const BASIC_X: bytes := [66, 97, 115, 105, 99, 32, 120]

  /** The lines `GET / HTTP/1.1` and `A: b`, a bare LF, and `Proxy-Authorization: Basic x`. */
  const SMUGGLED: bytes :=
    HidingHead([71, 69, 84, 32, 47, 32, 72, 84, 84, 80, 47, 49, 46, 49], [65, 58, 32, 98], PROXY_AUTHORIZATION,
               BASIC_X)

  /** That client's secret is still in the head after `strip_header`. */
  lemma SecretGetsThrough()
    ensures StripFrom(SMUGGLED, true, PROXY_AUTHORIZATION) == SMUGGLED
    ensures HeaderValue(SMUGGLED, PROXY_AUTHORIZATION) == Some(BASIC_X)
  {
    var first, before: bytes := [71, 69, 84, 32, 47, 32, 72, 84, 84, 80, 47, 49, 46, 49], [65, 58, 32, 98];
    var name, value: bytes := PROXY_AUTHORIZATION, BASIC_X;
    var line := before + [LF] + (name + [COLON, 32] + value);
    assert Lower(line[..|name|][0]) != Lower(name[0]);
    HiddenHeaderSurvives(first, before, name, value);
  }
}
