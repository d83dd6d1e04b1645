/** Decimal numerals and splitting text at a separator, as the standard library does them. */
module Numbers {
  import opened Wrappers

  predicate IsDigit(c: char) {
    '0' <= c <= '9'
  }

  predicate AllDigits(s: string) {
    forall i :: 0 <= i < |s| ==> IsDigit(s[i])
  }

  function Digit(d: nat): (c: char)
    requires d < 10
    ensures IsDigit(c)
  {
    ('0' as int + d) as char
  }

  function DigitValue(c: char): nat
    requires IsDigit(c)
  {
    c as int - '0' as int
  }

  function Value(s: string): nat
    requires AllDigits(s)
  {
    if s == "" then 0 else 10 * Value(s[..|s| - 1]) + DigitValue(s[|s| - 1])
  }

  /** `to_string`: no sign, no leading zero. */
  function Decimal(n: nat): string {
    if n < 10 then [Digit(n)] else Decimal(n / 10) + [Digit(n % 10)]
  }

  /** Printing and reading: a numeral reads back as its number. */
  lemma {:induction false} DecimalReads(n: nat)
    ensures AllDigits(Decimal(n)) && Value(Decimal(n)) == n
    ensures Decimal(n) != "" && (n > 0 ==> Decimal(n)[0] != '0')
  {
    if n < 10 {
      assert Decimal(n)[..0] == "";
    } else {
      DecimalReads(n / 10);
      assert Decimal(n)[..|Decimal(n)| - 1] == Decimal(n / 10);
    }
  }

  /** Digits without a leading zero are the numeral of their value. */
  lemma {:induction false} DecimalIsCanonical(s: string)
    requires AllDigits(s) && s != "" && (|s| == 1 || s[0] != '0')
    ensures Decimal(Value(s)) == s
    ensures |s| > 1 ==> Value(s) >= 10
    ensures s[0] != '0' ==> Value(s) > 0
  {
    var init, last := s[..|s| - 1], s[|s| - 1];
    assert Digit(DigitValue(last)) == last;
    if init == "" {
      assert s == [last];
    } else {
      DecimalIsCanonical(init);
      assert Value(s) / 10 == Value(init) && Value(s) % 10 == DigitValue(last);
      assert s == init + [last];
    }
  }

  /** Two to five digits are what the numbers from 10 to 99999 have. */
  lemma DecimalLength(n: nat)
    ensures n < 10 ==> |Decimal(n)| == 1
    ensures 10 <= n < 100 ==> |Decimal(n)| == 2
    ensures 100 <= n < 1000 ==> |Decimal(n)| == 3
    ensures 1000 <= n < 10000 ==> |Decimal(n)| == 4
    ensures 10000 <= n < 100000 ==> |Decimal(n)| == 5
  {
    if n >= 10 && n < 100000 {
      assert |Decimal(n)| == |Decimal(n / 10)| + 1;
      DecimalLength(n / 10);
    }
  }

  /** `str::parse::<u16>`: an optional plus sign, then digits. */
  function ParseU16(s: string): Option<nat> {
    var digits := if s != "" && s[0] == '+' then s[1..] else s;
    if digits == "" || !AllDigits(digits) || Value(digits) > 65535 then None else Some(Value(digits))
  }

  lemma PortReads(port: nat)
    requires port <= 65535
    ensures ParseU16(Decimal(port)) == Some(port)
  {
    DecimalReads(port);
  }

  // ----- Splitting -----

  /** `str::split`. */
  function SplitOn(t: string, c: char): (parts: seq<string>)
    ensures parts != []
  {
    if t == "" then [""]
    else
      var init, last := SplitOn(t[..|t| - 1], c), t[|t| - 1];
      if last == c then init + [""] else init[..|init| - 1] + [init[|init| - 1] + [last]]
  }

  lemma {:induction false} SplitPlain(t: string, c: char)
    requires c !in t
    ensures SplitOn(t, c) == [t]
  {
    if t != "" {
      SplitPlain(t[..|t| - 1], c);
      assert t == t[..|t| - 1] + [t[|t| - 1]];
    }
  }

  function Extend(parts: seq<string>, last: char, c: char): seq<string>
    requires parts != []
  {
    if last == c then parts + [""] else parts[..|parts| - 1] + [parts[|parts| - 1] + [last]]
  }

  lemma SplitOneMore(t: string, last: char, c: char)
    ensures SplitOn(t + [last], c) == Extend(SplitOn(t, c), last, c)
  {
    assert (t + [last])[..|t|] == t;
  }

  lemma ExtendTail(head: seq<string>, parts: seq<string>, last: char, c: char)
    requires parts != []
    ensures Extend(head + parts, last, c) == head + Extend(parts, last, c)
  {
    assert (head + parts)[..|head + parts| - 1] == head + parts[..|parts| - 1];
  }

  lemma {:induction false} SplitAtSeparator(a: string, c: char, b: string)
    ensures SplitOn(a + [c] + b, c) == SplitOn(a, c) + SplitOn(b, c)
  {
    if b == "" {
      assert a + [c] + b == a + [c];
      SplitOneMore(a, c, c);
    } else {
      var init, last := b[..|b| - 1], b[|b| - 1];
      SplitAtSeparator(a, c, init);
      assert b == init + [last] && a + [c] + b == a + [c] + init + [last];
      SplitOneMore(a + [c] + init, last, c);
      SplitOneMore(init, last, c);
      ExtendTail(SplitOn(a, c), SplitOn(init, c), last, c);
    }
  }

  /** What `join` makes of the parts. */
  function Joined(parts: seq<string>, c: char): string {
    if parts == [] then ""
    else if |parts| == 1 then parts[0]
    else Joined(parts[..|parts| - 1], c) + [c] + parts[|parts| - 1]
  }

  lemma JoinExtends(parts: seq<string>, last: char, c: char)
    requires parts != []
    ensures Joined(Extend(parts, last, c), c) == Joined(parts, c) + [last]
  {
    var more, init := Extend(parts, last, c), parts[..|parts| - 1];
    if last == c {
      assert more[..|more| - 1] == parts;
    } else {
      assert more[..|more| - 1] == init;
    }
  }

  lemma {:induction false} JoinUndoesSplit(t: string, c: char)
    ensures Joined(SplitOn(t, c), c) == t
  {
    if t != "" {
      var init, last := t[..|t| - 1], t[|t| - 1];
      assert t == init + [last];
      JoinUndoesSplit(init, c);
      SplitOneMore(init, last, c);
      JoinExtends(SplitOn(init, c), last, c);
    }
  }
}
