/**
 Rewriting a buffered message head (`strip_header`, `inject_header`, `header_value` and
 `request_has_body` in `src/server.rs`), on bytes.

 The source lower-cases a lossy decoding of a line before it compares the prefix with an ASCII name;
 an ASCII prefix matches the decoded line exactly when it matches the raw bytes.
 */
module Heads {
  import opened Wrappers

  const CR: byte := 13
  const LF: byte := 10
  const COLON: byte := 58
  const CRLF: bytes := [13, 10]

  // ----- Lines -----

  predicate CrLfAt(s: bytes, i: int) {
    0 <= i && i + 1 < |s| && s[i] == CR && s[i + 1] == LF
  }

  predicate NoCrLf(s: bytes) {
    forall i :: 0 <= i < |s| ==> !CrLfAt(s, i)
  }

  function CrLfFrom(s: bytes, i: nat): (r: Option<nat>)
    ensures r.Some? ==> i <= r.value && CrLfAt(s, r.value) && forall j :: i <= j < r.value ==> !CrLfAt(s, j)
    ensures r.None? ==> forall j :: i <= j < |s| ==> !CrLfAt(s, j)
    decreases |s| - i
  {
    if i + 1 >= |s| then None else if CrLfAt(s, i) then Some(i) else CrLfFrom(s, i + 1)
  }

  /** `windows(2).position(..)`. */
  function FirstCrLf(s: bytes): (r: Option<nat>)
    ensures r.Some? ==> CrLfAt(s, r.value) && forall i :: 0 <= i < r.value ==> !CrLfAt(s, i)
    ensures r.None? ==> NoCrLf(s)
  {
    CrLfFrom(s, 0)
  }

  lemma FirstCrLfIs(s: bytes, p: nat)
    requires CrLfAt(s, p) && forall i :: 0 <= i < p ==> !CrLfAt(s, i)
    ensures FirstCrLf(s) == Some(p)
  {
  }

  /** The pieces between the CRLFs; the last is what follows the last CRLF. */
  function Split(s: bytes): (pieces: seq<bytes>)
    ensures pieces != []
    decreases |s|
  {
    match FirstCrLf(s)
    case None => [s]
    case Some(p) => [s[..p]] + Split(s[p + 2..])
  }

  ghost predicate AllPlain(pieces: seq<bytes>) {
    forall k :: 0 <= k < |pieces| ==> NoCrLf(pieces[k])
  }

  lemma PlainCons(piece: bytes, rest: seq<bytes>)
    requires NoCrLf(piece) && AllPlain(rest)
    ensures AllPlain([piece] + rest)
  {
  }

  lemma {:induction false} PiecesArePlain(s: bytes)
    ensures AllPlain(Split(s))
    decreases |s|
  {
    var r := FirstCrLf(s);
    if r.Some? {
      var rest := s[r.value + 2..];
      SplitCons(s, r.value);
      PiecesArePlain(rest);
      PlainCons(s[..r.value], Split(rest));
    }
  }

  function Join(pieces: seq<bytes>): bytes
    requires pieces != []
  {
    if |pieces| == 1 then pieces[0] else pieces[0] + CRLF + Join(pieces[1..])
  }

  lemma JoinCons(piece: bytes, rest: seq<bytes>)
    requires rest != []
    ensures Join([piece] + rest) == piece + CRLF + Join(rest)
  {
    assert ([piece] + rest)[1..] == rest;
  }

  lemma SplitCons(s: bytes, p: nat)
    requires FirstCrLf(s) == Some(p)
    ensures Split(s) == [s[..p]] + Split(s[p + 2..])
    ensures s[..p + 2] == s[..p] + CRLF
    ensures NoCrLf(s[..p])
  {
    LineBefore(s, p);
  }

  lemma LineBefore(s: bytes, p: nat)
    requires FirstCrLf(s) == Some(p)
    ensures s[..p + 2] == s[..p] + CRLF
    ensures NoCrLf(s[..p])
  {
    forall i | 0 <= i < p ensures !CrLfAt(s[..p], i) {
      assert !CrLfAt(s, i);
    }
  }

  lemma {:induction false} JoinSplit(s: bytes)
    ensures Join(Split(s)) == s
    decreases |s|
  {
    var r := FirstCrLf(s);
    if r.Some? {
      var p := r.value;
      SplitCons(s, p);
      JoinSplit(s[p + 2..]);
      JoinCons(s[..p], Split(s[p + 2..]));
      assert s == s[..p] + CRLF + s[p + 2..];
    }
  }

  lemma SplitPrefixed(first: bytes, s: bytes)
    requires NoCrLf(first)
    ensures Split(first + CRLF + s) == [first] + Split(s)
  {
    var all, p := first + CRLF + s, |first|;
    forall i | 0 <= i < p ensures !CrLfAt(all, i) {
      assert !CrLfAt(first, i);
    }
    FirstCrLfIs(all, p);
    SplitCons(all, p);
    assert all[..p] == first && all[p + 2..] == s;
  }

  lemma {:induction false} SplitJoin(pieces: seq<bytes>)
    requires pieces != [] && AllPlain(pieces)
    ensures Split(Join(pieces)) == pieces
  {
    if |pieces| == 1 {
      assert pieces == [pieces[0]];
    } else {
      SplitPrefixed(pieces[0], Join(pieces[1..]));
      SplitJoin(pieces[1..]);
    }
  }

  // ----- Header names -----

  const PROXY_AUTHORIZATION: bytes :=
    [80, 114, 111, 120, 121, 45, 65, 117, 116, 104, 111, 114, 105, 122, 97, 116, 105, 111, 110]

  function Lower(b: byte): byte {
    if 65 <= b <= 90 then b + 32 else b
  }

  predicate SameName(a: bytes, b: bytes) {
    |a| == |b| && forall i :: 0 <= i < |a| ==> Lower(a[i]) == Lower(b[i])
  }

  /** The line starts with `name:`, in any case. */
  predicate Named(line: bytes, name: bytes) {
    |line| > |name| && SameName(line[..|name|], name) && line[|name|] == COLON
  }

  // ----- strip_header -----

  /** What the loop still has to copy, from the start of a line on. */
  function StripFrom(rest: bytes, first: bool, name: bytes): bytes
    decreases |rest|
  {
    match FirstCrLf(rest)
    case None => rest
    case Some(p) =>
      (if !first && Named(rest[..p], name) then [] else rest[..p + 2]) + StripFrom(rest[p + 2..], false, name)
  }

  method StripHeader(raw: bytes, name: bytes) returns (out: bytes)
    ensures out == StripFrom(raw, true, name)
  {
    out := [];
    var rest, first := raw, true;
    var pos := FirstCrLf(rest);
    while pos.Some?
      invariant pos == FirstCrLf(rest)
      invariant out + StripFrom(rest, first, name) == StripFrom(raw, true, name)
      decreases |rest|
    {
      var advance := pos.value + 2;
      var isTarget := !first && Named(rest[..pos.value], name);
      if !isTarget {
        out := out + rest[..advance];
      }
      rest, first := rest[advance..], false;
      pos := FirstCrLf(rest);
    }
    out := out + rest;
  }

  /** The terminated lines that stay, then the last piece, which is not a terminated line. */
  function Kept(pieces: seq<bytes>, name: bytes): (kept: seq<bytes>)
    requires pieces != []
    ensures kept != []
  {
    if |pieces| == 1 then pieces
    else if Named(pieces[0], name) then Kept(pieces[1..], name)
    else [pieces[0]] + Kept(pieces[1..], name)
  }

  /** The first line is never a header. */
  function Stripped(pieces: seq<bytes>, name: bytes): (kept: seq<bytes>)
    requires pieces != []
    ensures kept != []
  {
    if |pieces| == 1 then pieces else [pieces[0]] + Kept(pieces[1..], name)
  }

  lemma {:induction false} KeptAreOld(pieces: seq<bytes>, name: bytes)
    requires pieces != []
    ensures var kept := Kept(pieces, name);
      && kept[|kept| - 1] == pieces[|pieces| - 1]
      && forall k :: 0 <= k < |kept| ==> kept[k] in pieces
  {
    if |pieces| > 1 {
      KeptAreOld(pieces[1..], name);
      assert pieces == [pieces[0]] + pieces[1..];
      assert forall piece :: piece in pieces <==> piece == pieces[0] || piece in pieces[1..];
    }
  }

  lemma {:induction false} KeptAreOthers(pieces: seq<bytes>, name: bytes)
    requires pieces != []
    ensures NoneNamed(Kept(pieces, name), name)
  {
    if |pieces| > 1 {
      KeptAreOthers(pieces[1..], name);
      if !Named(pieces[0], name) {
        NoneNamedCons(pieces[0], Kept(pieces[1..], name), name);
      }
    }
  }

  /** No terminated line is the named header. */
  ghost predicate NoneNamed(pieces: seq<bytes>, name: bytes) {
    forall k :: 0 <= k < |pieces| - 1 ==> !Named(pieces[k], name)
  }

  lemma NoneNamedCons(line: bytes, rest: seq<bytes>, name: bytes)
    requires !Named(line, name) && NoneNamed(rest, name)
    ensures NoneNamed([line] + rest, name)
  {
    forall k | 0 <= k < |rest| ensures !Named(([line] + rest)[k], name) {
      if k > 0 {
        assert ([line] + rest)[k] == rest[k - 1];
      }
    }
  }

  lemma StrippedArePlain(pieces: seq<bytes>, name: bytes)
    requires pieces != [] && AllPlain(pieces)
    ensures AllPlain(Stripped(pieces, name))
  {
    if |pieces| > 1 {
      var kept := Kept(pieces[1..], name);
      KeptAreOld(pieces[1..], name);
      forall k | 0 <= k < |kept| ensures NoCrLf(kept[k]) {
        var m :| 0 <= m < |pieces| - 1 && pieces[1..][m] == kept[k];
        assert NoCrLf(pieces[m + 1]);
      }
    }
  }

  lemma KeptCons(line: bytes, rest: seq<bytes>, name: bytes)
    requires rest != []
    ensures Kept([line] + rest, name) == if Named(line, name) then Kept(rest, name) else [line] + Kept(rest, name)
    ensures Stripped([line] + rest, name) == [line] + Kept(rest, name)
  {
    assert ([line] + rest)[1..] == rest;
  }

  lemma {:induction false} StripFromKeeps(rest: bytes, name: bytes)
    ensures StripFrom(rest, false, name) == Join(Kept(Split(rest), name))
    decreases |rest|
  {
    var r := FirstCrLf(rest);
    if r.Some? {
      var line, after := rest[..r.value], rest[r.value + 2..];
      SplitCons(rest, r.value);
      StripFromKeeps(after, name);
      KeptCons(line, Split(after), name);
      JoinCons(line, Kept(Split(after), name));
    }
  }

  /**
   For every byte string: the lines of the result are the lines of the input with just the named
   headers left out, in order, request line and trailing bytes kept.
   */
  lemma StripRemovesExactlyTheNamedLines(raw: bytes, name: bytes)
    ensures Split(StripFrom(raw, true, name)) == Stripped(Split(raw), name)
    ensures StripFrom(raw, true, name) == Join(Stripped(Split(raw), name))
  {
    var r := FirstCrLf(raw);
    if r.Some? {
      var line, after := raw[..r.value], raw[r.value + 2..];
      SplitCons(raw, r.value);
      StripFromKeeps(after, name);
      KeptCons(line, Split(after), name);
      JoinCons(line, Kept(Split(after), name));
    }
    PiecesArePlain(raw);
    StrippedArePlain(Split(raw), name);
    SplitJoin(Stripped(Split(raw), name));
  }

  lemma {:induction false} KeptIsIdempotent(pieces: seq<bytes>, name: bytes)
    requires pieces != []
    ensures Kept(Kept(pieces, name), name) == Kept(pieces, name)
  {
    if |pieces| > 1 {
      KeptIsIdempotent(pieces[1..], name);
      if !Named(pieces[0], name) {
        assert Kept(pieces, name)[1..] == Kept(pieces[1..], name);
      }
    }
  }

  lemma StripIsIdempotent(raw: bytes, name: bytes)
    ensures StripFrom(StripFrom(raw, true, name), true, name) == StripFrom(raw, true, name)
  {
    var once := StripFrom(raw, true, name);
    StripRemovesExactlyTheNamedLines(raw, name);
    StripRemovesExactlyTheNamedLines(once, name);
    var pieces := Split(raw);
    if |pieces| > 1 {
      assert Stripped(pieces, name)[1..] == Kept(pieces[1..], name);
      KeptIsIdempotent(pieces[1..], name);
    }
  }

  // ----- inject_header -----

  function InjectHeader(raw: bytes, headerLine: bytes): bytes {
    match FirstCrLf(raw)
    case None => raw
    case Some(p) => raw[..p + 2] + headerLine + raw[p + 2..]
  }

  /** One line appears, directly under the first; nothing else moves. */
  lemma InjectAddsOneLine(raw: bytes, line: bytes)
    requires NoCrLf(line)
    ensures var pieces := Split(raw);
      Split(InjectHeader(raw, line + CRLF)) == if |pieces| == 1 then pieces else [pieces[0]] + ([line] + pieces[1..])
  {
    var r := FirstCrLf(raw);
    if r.Some? {
      var first, after := raw[..r.value], raw[r.value + 2..];
      SplitCons(raw, r.value);
      assert InjectHeader(raw, line + CRLF) == first + CRLF + (line + CRLF + after);
      SplitPrefixed(line, after);
      SplitPrefixed(first, line + CRLF + after);
    }
  }

  // ----- header_value -----

  function LfFrom(s: bytes, i: nat): (r: Option<nat>)
    ensures r.Some? ==> i <= r.value < |s| && s[r.value] == LF && forall j :: i <= j < r.value ==> s[j] != LF
    ensures r.None? ==> forall j :: i <= j < |s| ==> s[j] != LF
    decreases |s| - i
  {
    if i >= |s| then None else if s[i] == LF then Some(i) else LfFrom(s, i + 1)
  }

  function FirstLf(s: bytes): (r: Option<nat>)
    ensures r.Some? ==> r.value < |s| && s[r.value] == LF && forall i :: 0 <= i < r.value ==> s[i] != LF
    ensures r.None? ==> forall i :: 0 <= i < |s| ==> s[i] != LF
  {
    LfFrom(s, 0)
  }

  function DropCr(s: bytes): bytes {
    if s != [] && s[|s| - 1] == CR then s[..|s| - 1] else s
  }

  /** `str::lines`: split at LF, dropping one CR before it; a last line without LF is taken as it is. */
  function TextLines(s: bytes): seq<bytes>
    decreases |s|
  {
    match FirstLf(s)
    case None => if s == [] then [] else [s]
    case Some(q) => [DropCr(s[..q])] + TextLines(s[q + 1..])
  }

  predicate IsSpace(b: byte) {
    b == 32 || 9 <= b <= 13
  }

  function TrimStart(s: bytes): bytes {
    if s != [] && IsSpace(s[0]) then TrimStart(s[1..]) else s
  }

  function TrimEnd(s: bytes): bytes {
    if s != [] && IsSpace(s[|s| - 1]) then TrimEnd(s[..|s| - 1]) else s
  }

  function Trim(s: bytes): bytes {
    TrimEnd(TrimStart(s))
  }

  function FindNamed(lines: seq<bytes>, name: bytes): Option<bytes> {
    if lines == [] then None
    else if Named(lines[0], name) then Some(Trim(lines[0][|name| + 1..]))
    else FindNamed(lines[1..], name)
  }

  function HeaderValue(raw: bytes, name: bytes): Option<bytes> {
    var lines := TextLines(raw);
    if lines == [] then None else FindNamed(lines[1..], name)
  }

  /** Digits, with an optional plus sign, as the library parses an unsigned number; no overflow here. */
  function ParseUnsigned(s: bytes): Option<nat> {
    var digits := if s != [] && s[0] == 43 then s[1..] else s;
    if digits != [] && AreDigits(digits) then Some(DigitsValue(digits)) else None
  }

  predicate AreDigits(s: bytes) {
    forall i :: 0 <= i < |s| ==> 48 <= s[i] <= 57
  }

  function DigitsValue(s: bytes): nat
    requires AreDigits(s)
  {
    if s == [] then 0 else 10 * DigitsValue(s[..|s| - 1]) + (s[|s| - 1] - 48)
  }

  const U64_MAX: nat := 0xFFFF_FFFF_FFFF_FFFF

  const TRANSFER_ENCODING: bytes := [84, 114, 97, 110, 115, 102, 101, 114, 45, 69, 110, 99, 111, 100, 105, 110, 103]
  const CONTENT_LENGTH: bytes := [67, 111, 110, 116, 101, 110, 116, 45, 76, 101, 110, 103, 116, 104]

  /** `request_has_body`: chunked, or a length that is not plainly zero. */
  function RequestHasBody(raw: bytes): bool {
    if HeaderValue(raw, TRANSFER_ENCODING).Some? then true
    else
      match HeaderValue(raw, CONTENT_LENGTH)
      case None => false
      case Some(v) =>
        match ParseUnsigned(v)
        case None => true
        case Some(n) => n > U64_MAX || n > 0
  }

  // ----- The sanitised request -----

  /** A head as a client sends it: every LF closes a CRLF, and the last line is closed. */
  ghost predicate CleanHead(raw: bytes) {
    && |raw| >= 2 && raw[|raw| - 2..] == CRLF
    && forall i :: 0 <= i < |raw| && raw[i] == LF ==> i > 0 && raw[i - 1] == CR
  }

  ghost predicate NoLf(s: bytes) {
    forall i :: 0 <= i < |s| ==> s[i] != LF
  }

  ghost predicate CleanPieces(pieces: seq<bytes>) {
    && |pieces| >= 2 && pieces[|pieces| - 1] == []
    && forall k :: 0 <= k < |pieces| ==> NoLf(pieces[k])
  }

  /** The first line of a clean head, and what follows it. */
  lemma CleanFirst(raw: bytes, p: nat)
    requires CleanHead(raw) && FirstCrLf(raw) == Some(p)
    ensures NoLf(raw[..p]) && (raw[p + 2..] != [] ==> CleanHead(raw[p + 2..]))
  {
    forall i | 0 <= i < p ensures raw[i] != LF {
      if raw[i] == LF {
        assert CrLfAt(raw, i - 1);
      }
    }
    var rest := raw[p + 2..];
    if rest != [] {
      forall i | 0 <= i < |rest| && rest[i] == LF ensures i > 0 && rest[i - 1] == CR {
        assert raw[p + 2 + i] == LF;
      }
      assert rest[|rest| - 1] == raw[|raw| - 1];
    }
  }

  lemma {:induction false} CleanSplit(raw: bytes)
    requires CleanHead(raw)
    ensures CleanPieces(Split(raw))
    decreases |raw|
  {
    assert CrLfAt(raw, |raw| - 2);
    var p := FirstCrLf(raw).value;
    var rest := raw[p + 2..];
    CleanFirst(raw, p);
    SplitCons(raw, p);
    if rest == [] {
      assert Split(rest) == [[]];
      CleanCons(raw[..p], [[]]);
    } else {
      CleanSplit(rest);
      CleanCons(raw[..p], Split(rest));
    }
  }

  lemma CleanCons(line: bytes, rest: seq<bytes>)
    requires NoLf(line) && (rest == [[]] || CleanPieces(rest))
    ensures CleanPieces([line] + rest)
  {
  }

  lemma TextLine(head: bytes, rest: bytes)
    requires NoLf(head)
    ensures TextLines(head + CRLF + rest) == [head] + TextLines(rest)
  {
    var s := head + CRLF + rest;
    assert s[|head| + 1] == LF && forall i :: 0 <= i < |head| + 1 ==> s[i] != LF;
    assert FirstLf(s) == Some(|head| + 1);
    assert s[..|head| + 1] == head + [CR] && s[|head| + 2..] == rest;
    assert DropCr(head + [CR]) == head;
  }

  /** On clean heads the two notions of line agree. */
  lemma {:induction false} CleanLines(pieces: seq<bytes>)
    requires CleanPieces(pieces)
    ensures TextLines(Join(pieces)) == pieces[..|pieces| - 1]
  {
    var head, tail := pieces[0], pieces[1..];
    TextLine(head, Join(tail));
    if |pieces| == 2 {
      assert Join(tail) == [] && pieces[..1] == [head];
    } else {
      CleanLines(tail);
      assert pieces[..|pieces| - 1] == [head] + tail[..|tail| - 1];
    }
  }

  lemma CleanReadBack(s: bytes, pieces: seq<bytes>)
    requires Split(s) == pieces && CleanPieces(pieces)
    ensures TextLines(s) == pieces[..|pieces| - 1]
  {
    JoinSplit(s);
    CleanLines(pieces);
  }

  lemma NoLfNoCrLf(s: bytes)
    requires NoLf(s)
    ensures NoCrLf(s)
  {
  }

  lemma {:induction false} FindNamedNone(lines: seq<bytes>, name: bytes)
    requires forall k :: 0 <= k < |lines| ==> !Named(lines[k], name)
    ensures FindNamed(lines, name) == None
  {
    if lines != [] {
      FindNamedNone(lines[1..], name);
    }
  }

  lemma TrimOfPadded(v: bytes)
    requires v != [] && !IsSpace(v[0]) && !IsSpace(v[|v| - 1])
    ensures Trim([32] + v) == v
  {
    assert ([32] + v)[1..] == v;
    assert TrimStart([32] + v) == TrimStart(v) == v;
  }

  lemma StrippedPieces(pieces: seq<bytes>, name: bytes)
    requires CleanPieces(pieces)
    ensures var s := Stripped(pieces, name);
      CleanPieces(s) && s[0] == pieces[0] && forall k :: 1 <= k < |s| - 1 ==> !Named(s[k], name)
  {
    var kept := Kept(pieces[1..], name);
    KeptAreOld(pieces[1..], name);
    KeptAreOthers(pieces[1..], name);
    var s := Stripped(pieces, name);
    assert forall k :: 1 <= k < |s| ==> s[k] == kept[k - 1];
    forall k | 0 <= k < |s| ensures NoLf(s[k]) {
      assert s[k] in pieces;
    }
  }

  /** The pieces of a clean head after `strip_header`, none of them the named header. */
  lemma StrippedIsClean(raw: bytes, name: bytes)
    requires CleanHead(raw)
    ensures var out := StripFrom(raw, true, name);
      && CleanPieces(Split(out))
      && Split(out)[0] == Split(raw)[0]
      && (forall k :: 1 <= k < |Split(out)| - 1 ==> !Named(Split(out)[k], name))
  {
    CleanSplit(raw);
    StripRemovesExactlyTheNamedLines(raw, name);
    StrippedPieces(Split(raw), name);
  }

  /**
   Without credentials of its own the upstream sees no such header at all: the client's secret does
   not get through.
   */
  lemma ForwardedWithoutCredentials(raw: bytes, name: bytes)
    requires CleanHead(raw)
    ensures HeaderValue(StripFrom(raw, true, name), name) == None
  {
    var out := StripFrom(raw, true, name);
    StrippedIsClean(raw, name);
    CleanReadBack(out, Split(out));
    var lines := TextLines(out);
    forall k | 0 <= k < |lines[1..]| ensures !Named(lines[1..][k], name) {
      assert lines[1..][k] == Split(out)[k + 1];
    }
    FindNamedNone(lines[1..], name);
  }

  lemma CleanInsert(pieces: seq<bytes>, line: bytes)
    requires CleanPieces(pieces) && NoLf(line)
    ensures CleanPieces([pieces[0]] + ([line] + pieces[1..]))
  {
  }

  lemma ValueOfInjected(lines: seq<bytes>, name: bytes, value: bytes)
    requires |lines| >= 2 && lines[1] == name + [COLON, 32] + value
    requires value != [] && !IsSpace(value[0]) && !IsSpace(value[|value| - 1])
    ensures FindNamed(lines[1..], name) == Some(value)
  {
    var line := lines[1];
    assert line[..|name|] == name && line[|name| + 1..] == [32] + value;
    assert SameName(line[..|name|], name);
    TrimOfPadded(value);
  }

  /**
   With credentials there is exactly one such line, directly under the request line, and reading it
   back gives the upstream's value.
   */
  lemma ForwardedWithCredentials(raw: bytes, name: bytes, value: bytes)
    requires CleanHead(raw)
    requires NoLf(name) && NoLf(value)
    requires value != [] && !IsSpace(value[0]) && !IsSpace(value[|value| - 1])
    ensures var line := name + [COLON, 32] + value;
      var out := InjectHeader(StripFrom(raw, true, name), line + CRLF);
      var pieces := Split(out);
      && |pieces| >= 3 && pieces[0] == Split(raw)[0] && pieces[1] == line
      && (forall k :: 2 <= k < |pieces| - 1 ==> !Named(pieces[k], name))
      && HeaderValue(out, name) == Some(value)
  {
    var line := name + [COLON, 32] + value;
    var out := InjectHeader(StripFrom(raw, true, name), line + CRLF);
    HeaderLineHasNoLf(name, value);
    InjectedStripped(raw, name, line);
    CleanReadBack(out, Split(out));
    ValueOfInjected(Split(out)[..|Split(out)| - 1], name, value);
  }

  /** The pieces of the rewritten head: the first line, the injected one, and none of the name under it. */
  lemma InjectedStripped(raw: bytes, name: bytes, line: bytes)
    requires CleanHead(raw) && NoLf(line)
    ensures var pieces := Split(InjectHeader(StripFrom(raw, true, name), line + CRLF));
      && CleanPieces(pieces) && |pieces| >= 3 && pieces[0] == Split(raw)[0] && pieces[1] == line
      && forall k :: 2 <= k < |pieces| - 1 ==> !Named(pieces[k], name)
  {
    var stripped := StripFrom(raw, true, name);
    StrippedIsClean(raw, name);
    InjectedPieces(stripped, line);
    NoneNamedUnder(Split(stripped), line, name);
  }

  lemma NoneNamedUnder(pieces: seq<bytes>, line: bytes, name: bytes)
    requires CleanPieces(pieces) && forall k :: 1 <= k < |pieces| - 1 ==> !Named(pieces[k], name)
    ensures var more := [pieces[0]] + ([line] + pieces[1..]);
      |more| == |pieces| + 1 && more[0] == pieces[0] && more[1] == line
      && forall k :: 2 <= k < |more| - 1 ==> !Named(more[k], name)
  {
    var more := [pieces[0]] + ([line] + pieces[1..]);
    assert forall k :: 2 <= k < |more| ==> more[k] == pieces[k - 1];
  }

  lemma HeaderLineHasNoLf(name: bytes, value: bytes)
    requires NoLf(name) && NoLf(value)
    ensures NoLf(name + [COLON, 32] + value)
  {
  }

  lemma InjectedPieces(raw: bytes, line: bytes)
    requires CleanPieces(Split(raw)) && NoLf(line)
    ensures var before := Split(raw);
      Split(InjectHeader(raw, line + CRLF)) == [before[0]] + ([line] + before[1..])
    ensures CleanPieces(Split(InjectHeader(raw, line + CRLF)))
  {
    NoLfNoCrLf(line);
    InjectAddsOneLine(raw, line);
    CleanInsert(Split(raw), line);
  }
}
