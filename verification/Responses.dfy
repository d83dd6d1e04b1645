/**
 The start of an upstream's answer (`read_status_line` and `parse_http_status` in `src/server.rs`,
 `read_head` in `src/negotiator.rs`).

 A stream is the bytes it will ever deliver, how it ends after them, and how many of them arrive
 before the deadline.
 */
module Responses {
  import opened Wrappers
  import opened Proxies
  import opened Heads

  datatype StreamEnd = Closed | Broken

  datatype Stream = Stream(data: bytes, end: StreamEnd, inTime: nat)

  const STATUS_LINE_CAP := 256
  const HEAD_CAP := 8192

  function EndError(end: StreamEnd, empty: bool): ProxyError {
    if end == Broken then Reset else if empty then EmptyRecv else Reset
  }

  // ----- The status line -----

  /** Where the line ends: just after the first LF, and at the cap at the latest. */
  ghost predicate IsStatusLine(data: bytes, k: nat) {
    && 0 < k <= |data| && k <= STATUS_LINE_CAP
    && (data[k - 1] == LF || k == STATUS_LINE_CAP)
    && forall i :: 0 <= i < k - 1 ==> data[i] != LF
  }

  method ReadStatusLine(upstream: Stream) returns (r: Result<bytes, ProxyError>)
    // Exactly the shortest prefix that ends a line, or an error; nothing past it is consumed.
    ensures r.Success? ==> |r.value| <= |upstream.data| && r.value == upstream.data[..|r.value|]
    ensures r.Success? ==> IsStatusLine(upstream.data, |r.value|) && |r.value| <= upstream.inTime
    ensures r.Failure? <==> !exists k: nat :: IsStatusLine(upstream.data, k) && k <= upstream.inTime
    ensures r.Failure? ==> r.error in {Timeout, Reset, EmptyRecv}
  {
    var head := [];
    while true
      invariant |head| <= |upstream.data| && head == upstream.data[..|head|]
      invariant |head| <= upstream.inTime && |head| < STATUS_LINE_CAP
      invariant forall i :: 0 <= i < |head| ==> head[i] != LF
      decreases STATUS_LINE_CAP - |head|
    {
      if |head| >= upstream.inTime {
        return Failure(Timeout);
      }
      if |head| >= |upstream.data| {
        return Failure(if upstream.end == Broken then Reset else EmptyRecv);
      }
      head := head + [upstream.data[|head|]];
      if head[|head| - 1] == LF || |head| >= STATUS_LINE_CAP {
        assert IsStatusLine(upstream.data, |head|);
        return Success(head);
      }
    }
  }

  lemma StatusLineIsUnique(data: bytes, j: nat, k: nat)
    requires IsStatusLine(data, j) && IsStatusLine(data, k)
    ensures j == k
  {
  }

  /**
   The client's copy: the injected line appears only after a CRLF that ends the status line, and
   taking it out again gives back what the upstream sent.
   */
  lemma SpliceIsExact(data: bytes, k: nat, info: bytes)
    requires IsStatusLine(data, k)
    ensures InjectHeader(data[..k], info) + data[k..]
         == if k >= 2 && CrLfAt(data, k - 2) then data[..k] + info + data[k..] else data
    ensures k >= 2 && CrLfAt(data, k - 2) ==> FirstCrLf(data) == Some(k - 2)
  {
    var line := data[..k];
    assert line + data[k..] == data;
    if k >= 2 && CrLfAt(data, k - 2) {
      FirstCrLfIs(line, k - 2);
      FirstCrLfIs(data, k - 2);
      assert line[k..] == [] && line[..k] == line;
    } else {
      forall i | 0 <= i < k ensures !CrLfAt(line, i) {
        assert CrLfAt(line, i) ==> CrLfAt(data, i);
      }
    }
  }

  // ----- The status code -----

  function SkipSpace(s: bytes): bytes {
    if s != [] && IsSpace(s[0]) then SkipSpace(s[1..]) else s
  }

  function Word(s: bytes): bytes {
    if s != [] && !IsSpace(s[0]) then [s[0]] + Word(s[1..]) else []
  }

  function AfterWord(s: bytes): bytes {
    if s != [] && !IsSpace(s[0]) then AfterWord(s[1..]) else s
  }

  /** `split_whitespace().nth(1)`; empty when there is no second word. */
  function SecondWord(s: bytes): bytes {
    Word(SkipSpace(AfterWord(SkipSpace(s))))
  }

  predicate Continues(b: byte) {
    0x80 <= b <= 0xBF
  }

  /** `from_utf8` (RFC 3629, section 4). */
  predicate ValidUtf8(s: bytes)
    decreases |s|
  {
    if s == [] then true
    else if s[0] < 0x80 then ValidUtf8(s[1..])
    else if 0xC2 <= s[0] <= 0xDF then |s| >= 2 && Continues(s[1]) && ValidUtf8(s[2..])
    else if 0xE0 <= s[0] <= 0xEF then
      && |s| >= 3
      && (if s[0] == 0xE0 then 0xA0 <= s[1] <= 0xBF else if s[0] == 0xED then 0x80 <= s[1] <= 0x9F else Continues(s[1]))
      && Continues(s[2]) && ValidUtf8(s[3..])
    else if 0xF0 <= s[0] <= 0xF4 then
      && |s| >= 4
      && (if s[0] == 0xF0 then 0x90 <= s[1] <= 0xBF else if s[0] == 0xF4 then 0x80 <= s[1] <= 0x8F else Continues(s[1]))
      && Continues(s[2]) && Continues(s[3]) && ValidUtf8(s[4..])
    else false
  }

  /** `parse_http_status`: 0 for what is not text. */
  function ParseHttpStatus(head: bytes): nat {
    if ValidUtf8(head) then CodeOf(head) else 0
  }

  /** The second word as a 16-bit number, 0 when it is not one. */
  function CodeOf(head: bytes): nat {
    match ParseUnsigned(SecondWord(head))
    case None => 0
    case Some(n) => if n < 0x10000 then n else 0
  }

  /** The second word of the line is followed by white space, so more bytes cannot lengthen it. */
  predicate StatusSettled(head: bytes) {
    AfterWord(SkipSpace(AfterWord(SkipSpace(head)))) != []
  }

  lemma {:induction false} SkipSpaceExtends(s: bytes, more: bytes)
    requires SkipSpace(s) != []
    ensures SkipSpace(s + more) == SkipSpace(s) + more
  {
    if IsSpace(s[0]) {
      assert (s + more)[1..] == s[1..] + more;
      SkipSpaceExtends(s[1..], more);
    }
  }

  lemma {:induction false} WordExtends(s: bytes, more: bytes)
    requires AfterWord(s) != []
    ensures Word(s + more) == Word(s)
    ensures AfterWord(s + more) == AfterWord(s) + more
  {
    if !IsSpace(s[0]) {
      assert (s + more)[1..] == s[1..] + more;
      WordExtends(s[1..], more);
    }
  }

  lemma {:induction false} AfterNothing(s: bytes)
    ensures AfterWord(s) != [] ==> s != []
    ensures SkipSpace(s) != [] ==> s != []
  {
  }

  /** A settled status stays what it is, whatever the stream brings next. */
  lemma SettledStatusIsFinal(head: bytes, more: bytes)
    requires StatusSettled(head)
    ensures CodeOf(head + more) == CodeOf(head)
  {
    var a := SkipSpace(head);
    var b := AfterWord(a);
    var c := SkipSpace(b);
    AfterNothing(c);
    AfterNothing(b);
    AfterNothing(a);
    SkipSpaceExtends(head, more);
    WordExtends(a, more);
    SkipSpaceExtends(b, more);
    WordExtends(c, more);
  }

  /** A line that ends in LF and has a second word is settled. */
  lemma {:induction false} EndsInSpaceAfterWord(s: bytes)
    requires s != [] && IsSpace(s[|s| - 1])
    ensures AfterWord(s) != [] && IsSpace(AfterWord(s)[|AfterWord(s)| - 1])
    ensures SkipSpace(s) != [] ==> IsSpace(SkipSpace(s)[|SkipSpace(s)| - 1])
    decreases |s|
  {
    if |s| > 1 {
      EndsInSpaceAfterWord(s[1..]);
    }
  }

  lemma TerminatedStatusIsSettled(line: bytes)
    requires line != [] && line[|line| - 1] == LF
    requires SecondWord(line) != []
    ensures StatusSettled(line)
  {
    var a := SkipSpace(line);
    EndsInSpaceAfterWord(line);
    var b := AfterWord(a);
    EndsInSpaceAfterWord(a);
    EndsInSpaceAfterWord(b);
    EndsInSpaceAfterWord(SkipSpace(b));
  }

  // ----- What the gate decides -----

  lemma {:induction false} WholeWord(s: bytes)
    requires AfterWord(s) == []
    ensures Word(s) == s && forall i :: 0 <= i < |s| ==> !IsSpace(s[i])
  {
    if s != [] {
      WholeWord(s[1..]);
    }
  }

  lemma {:induction false} WordOfWord(s: bytes)
    requires forall i :: 0 <= i < |s| ==> !IsSpace(s[i])
    ensures Word(s) == s
  {
    if s != [] {
      WordOfWord(s[1..]);
    }
  }

  const ZERO: byte := 48

  /** A second word that nothing follows yet grows by the next digit. */
  lemma UnsettledWordGrows(line: bytes)
    requires !StatusSettled(line) && SecondWord(line) != []
    ensures SecondWord(line + [ZERO]) == SecondWord(line) + [ZERO]
  {
    var a := SkipSpace(line);
    var b := AfterWord(a);
    var c := SkipSpace(b);
    AfterNothing(b);
    AfterNothing(a);
    SkipSpaceExtends(line, [ZERO]);
    WordExtends(a, [ZERO]);
    SkipSpaceExtends(b, [ZERO]);
    WholeWord(c);
    WordOfWord(c + [ZERO]);
  }

  lemma TenTimes(w: bytes)
    requires ParseUnsigned(w).Some?
    ensures ParseUnsigned(w + [ZERO]) == Some(10 * ParseUnsigned(w).value)
  {
    var digits := if w != [] && w[0] == 43 then w[1..] else w;
    assert (if (w + [ZERO])[0] == 43 then (w + [ZERO])[1..] else w + [ZERO]) == digits + [ZERO];
    assert AreDigits(digits + [ZERO]);
    assert (digits + [ZERO])[..|digits|] == digits;
  }

  /** A code that is read from an unsettled line is another one after one more zero. */
  lemma UnsettledCodeChanges(line: bytes)
    requires !StatusSettled(line) && CodeOf(line) != 0
    ensures CodeOf(line + [ZERO]) != CodeOf(line)
  {
    assert ParseUnsigned([]).None?;
    UnsettledWordGrows(line);
    TenTimes(SecondWord(line));
  }

  /**
   What the gate reads is what the client will read, whatever the stream brings next, exactly when
   white space has followed the code already.
   */
  lemma GateIsFinal(line: bytes)
    requires CodeOf(line) != 0
    ensures (forall more: bytes :: CodeOf(line + more) == CodeOf(line)) <==> StatusSettled(line)
  {
    if StatusSettled(line) {
      forall more: bytes ensures CodeOf(line + more) == CodeOf(line) {
        SettledStatusIsFinal(line, more);
      }
    } else {
      UnsettledCodeChanges(line);
    }
  }

  /** A status line that is not settled has been cut at the cap, inside its code. */
  lemma UnsettledIsCut(data: bytes, k: nat)
    requires IsStatusLine(data, k) && CodeOf(data[..k]) != 0 && !StatusSettled(data[..k])
    ensures k == STATUS_LINE_CAP && data[k - 1] != LF
  {
    assert ParseUnsigned([]).None?;
    if data[k - 1] == LF {
      TerminatedStatusIsSettled(data[..k]);
    }
  }

  /** The code of the whole answer is the code that was gated, if the line is settled. */
  lemma GateReadsTheRealStatus(data: bytes, k: nat)
    requires IsStatusLine(data, k) && CodeOf(data[..k]) != 0
    ensures data[k - 1] == LF ==> CodeOf(data) == CodeOf(data[..k])
    ensures StatusSettled(data[..k]) ==> CodeOf(data) == CodeOf(data[..k])
    ensures !StatusSettled(data[..k]) ==> k == STATUS_LINE_CAP && data[k - 1] != LF
  {
    if StatusSettled(data[..k]) {
      assert data == data[..k] + data[k..];
      SettledStatusIsFinal(data[..k], data[k..]);
    } else {
      UnsettledIsCut(data, k);
    }
  }

  // ----- A status line that is cut inside its code -----

  /** `H`, 252 spaces and `200`: 256 bytes without an end of line. */
  function CutLine(): bytes {
    [72] + seq(252, _ => 32) + [50, 48, 48]
  }

  lemma {:induction false} SkipsSpaces(n: nat, rest: bytes)
    requires rest != [] && !IsSpace(rest[0])
    ensures SkipSpace(seq(n, _ => 32) + rest) == rest
  {
    var s := seq(n, _ => 32) + rest;
    if n == 0 {
      assert s == rest;
    } else {
      assert s[1..] == seq(n - 1, _ => 32) + rest;
      SkipsSpaces(n - 1, rest);
    }
  }

  lemma {:induction false} AsciiIsUtf8(s: bytes)
    requires forall i :: 0 <= i < |s| ==> s[i] < 0x80
    ensures ValidUtf8(s)
    decreases |s|
  {
    if s != [] {
      AsciiIsUtf8(s[1..]);
    }
  }

  lemma CodeAfterSpaces(n: nat, code: bytes)
    requires n > 0 && code != [] && forall i :: 0 <= i < |code| ==> !IsSpace(code[i])
    ensures SecondWord([72] + seq(n, _ => 32) + code) == code
  {
    var line := [72] + seq(n, _ => 32) + code;
    var gap := seq(n, _ => 32) + code;
    assert line == [72] + gap && line[1..] == gap;
    assert SkipSpace(line) == line;
    assert AfterWord(gap) == gap;
    assert AfterWord(line) == AfterWord(line[1..]);
    SkipsSpaces(n, code);
    WordOfWord(code);
  }

  /** The gate reads 200 where the client, one byte later, reads 2005. */
  lemma CutLineFoolsTheGate()
    ensures var data := CutLine() + [53];
      && IsStatusLine(data, STATUS_LINE_CAP) && data[..STATUS_LINE_CAP] == CutLine()
      && ParseHttpStatus(CutLine()) == 200 && CodeOf(data) == 2005
  {
    var data := CutLine() + [53];
    assert data == [72] + seq(252, _ => 32) + [50, 48, 48, 53];
    CodeAfterSpaces(252, [50, 48, 48]);
    CodeAfterSpaces(252, [50, 48, 48, 53]);
    AsciiIsUtf8(CutLine());
    TheseNumbers();
  }

  lemma TheseNumbers()
    ensures ParseUnsigned([50, 48, 48]) == Some(200) && ParseUnsigned([50, 48, 48, 53]) == Some(2005)
  {
    var a, b, c: bytes, d: bytes := [50], [50, 48], [50, 48, 48], [50, 48, 48, 53];
    assert a[..0] == [] && b[..1] == a && c[..2] == b && d[..3] == c;
    assert DigitsValue(a) == 2;
    assert DigitsValue(b) == 20;
    assert DigitsValue(c) == 200;
    assert DigitsValue(d) == 2005;
  }

  // ----- The head of a CONNECT answer -----

  /** A blank line ends just before position j. */
  predicate BlankLineBefore(data: bytes, j: int) {
    4 <= j <= |data| && data[j - 4] == CR && data[j - 3] == LF && data[j - 2] == CR && data[j - 1] == LF
  }

  ghost predicate IsHead(data: bytes, k: nat) {
    BlankLineBefore(data, k) && forall j :: 0 <= j < k ==> !BlankLineBefore(data, j)
  }

  /** `read_head`: stops right after the blank line, so no byte of the tunnel is swallowed. */
  method ReadHead(tcp: Stream) returns (r: Result<bytes, ProxyError>)
    ensures r.Success? ==> |r.value| <= |tcp.data| && r.value == tcp.data[..|r.value|]
    ensures r.Success? ==> IsHead(tcp.data, |r.value|) && |r.value| <= tcp.inTime && |r.value| <= HEAD_CAP + 1
    ensures r.Failure? <==> !exists k: nat :: IsHead(tcp.data, k) && k <= tcp.inTime && k <= HEAD_CAP + 1
  {
    var buf := [];
    while true
      invariant |buf| <= |tcp.data| && buf == tcp.data[..|buf|]
      invariant |buf| <= tcp.inTime && |buf| <= HEAD_CAP
      invariant forall j :: 0 <= j <= |buf| ==> !BlankLineBefore(tcp.data, j)
      decreases HEAD_CAP + 1 - |buf|
    {
      if |buf| >= tcp.inTime {
        return Failure(Timeout);
      }
      if |buf| >= |tcp.data| {
        return Failure(EndError(tcp.end, buf == []));
      }
      buf := buf + [tcp.data[|buf|]];
      assert BlankLineBefore(buf, |buf|) == BlankLineBefore(tcp.data, |buf|);
      if BlankLineBefore(buf, |buf|) {
        assert IsHead(tcp.data, |buf|);
        return Success(buf);
      }
      if |buf| > HEAD_CAP {
        assert forall k: nat :: k <= HEAD_CAP + 1 ==> !IsHead(tcp.data, k);
        return Failure(BadResponse);
      }
    }
  }

  // ----- Short status lines -----

  lemma {:induction false} WordBefore(word: bytes, rest: bytes)
    requires (forall i :: 0 <= i < |word| ==> !IsSpace(word[i])) && rest != [] && IsSpace(rest[0])
    ensures Word(word + rest) == word
  {
    if word == [] {
      assert word + rest == rest;
    } else {
      assert (word + rest)[1..] == word[1..] + rest;
      WordBefore(word[1..], rest);
    }
  }

  /** `H`, a space, the code and the end of the line. */
  function ShortLine(code: bytes): bytes {
    [72, 32] + code + CRLF
  }

  lemma ShortLineReads(code: bytes)
    requires code != [] && forall i :: 0 <= i < |code| ==> 48 <= code[i] <= 57
    ensures IsStatusLine(ShortLine(code), |code| + 4) || |code| + 4 > STATUS_LINE_CAP
    ensures ValidUtf8(ShortLine(code)) && SecondWord(ShortLine(code)) == code
  {
    var line, gap, rest := ShortLine(code), [32] + (code + CRLF), code + CRLF;
    assert line == [72] + gap && line[1..] == gap && gap[1..] == rest;
    assert SkipSpace(line) == line && AfterWord(gap) == gap && AfterWord(line) == AfterWord(line[1..]);
    assert SkipSpace(rest) == rest && SkipSpace(gap) == SkipSpace(gap[1..]);
    WordBefore(code, CRLF);
    AsciiIsUtf8(line);
  }

  lemma OkAndForbidden()
    ensures ParseUnsigned([50, 48, 48]) == Some(200) && ParseUnsigned([52, 48, 51]) == Some(403)
  {
    TheseNumbers();
    var a, b, c: bytes := [52], [52, 48], [52, 48, 51];
    assert a[..0] == [] && b[..1] == a && c[..2] == b;
    assert DigitsValue(a) == 4;
    assert DigitsValue(b) == 40;
    assert DigitsValue(c) == 403;
  }
}
