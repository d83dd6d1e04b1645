/**
 Standard base64 (`base64_encode` in `src/utils.rs`; section 4 of RFC 4648).

 The repository only encodes; the decoder here is the independent reading of the RFC that the encoder
 is measured against.
 */
module Base64 {
  import opened Wrappers

  const PAD: byte := 61

  /** The alphabet of RFC 4648, table 1. */
  function Symbol(v: nat): (c: byte)
    requires v < 64
    ensures c != PAD
  {
    if v < 26 then 65 + v
    else if v < 52 then 97 + (v - 26)
    else if v < 62 then 48 + (v - 52)
    else if v == 62 then 43
    else 47
  }

  function ValueOf(c: byte): Option<nat> {
    if 65 <= c <= 90 then Some(c - 65)
    else if 97 <= c <= 122 then Some(c - 97 + 26)
    else if 48 <= c <= 57 then Some(c - 48 + 52)
    else if c == 43 then Some(62)
    else if c == 47 then Some(63)
    else None
  }

  lemma SymbolRoundTrip(v: nat)
    requires v < 64
    ensures ValueOf(Symbol(v)) == Some(v)
  {
  }

  /** Three octets as one 24-bit number. */
  function Group(x: nat, y: nat, z: nat): nat {
    x * 65536 + y * 256 + z
  }

  function At(chunk: seq<byte>, k: nat): byte {
    if k < |chunk| then chunk[k] else 0
  }

  /** The four characters of one chunk of one, two or three octets. */
  function EncodeChunk(chunk: seq<byte>): (r: seq<byte>)
    ensures |r| == 4
  {
    var n := Group(At(chunk, 0), At(chunk, 1), At(chunk, 2));
    Emit(|chunk|, n / 262144 % 64, n / 4096 % 64, n / 64 % 64, n % 64)
  }

  function Emit(octets: nat, a: nat, b: nat, c: nat, d: nat): (r: seq<byte>)
    requires a < 64 && b < 64 && c < 64 && d < 64
    ensures |r| == 4
  {
    [Symbol(a), Symbol(b), if octets > 1 then Symbol(c) else PAD, if octets > 2 then Symbol(d) else PAD]
  }

  /** `chunks(3)`, each chunk through f, the results in a row. */
  function ByChunks(f: seq<byte> -> seq<byte>, input: seq<byte>): seq<byte> {
    if input == [] then []
    else if |input| <= 3 then f(input)
    else f(input[..3]) + ByChunks(f, input[3..])
  }

  function Encode(input: seq<byte>): seq<byte> {
    ByChunks(EncodeChunk, input)
  }

  lemma {:induction false} ByChunksAppends(f: seq<byte> -> seq<byte>, done: seq<byte>, chunk: seq<byte>)
    requires |done| % 3 == 0 && 1 <= |chunk| <= 3
    ensures ByChunks(f, done + chunk) == ByChunks(f, done) + f(chunk)
  {
    if done == [] {
      assert done + chunk == chunk;
    } else {
      ByChunksAppends(f, done[3..], chunk);
      assert (done + chunk)[..3] == done[..3] && (done + chunk)[3..] == done[3..] + chunk;
      if |done| == 3 {
        assert done[..3] == done && done[3..] == [];
      }
    }
  }

  lemma {:induction false} ByChunksLength(f: seq<byte> -> seq<byte>, input: seq<byte>)
    requires forall c :: |f(c)| == 4
    ensures |ByChunks(f, input)| == (|input| + 2) / 3 * 4
  {
    if |input| > 3 {
      ByChunksLength(f, input[3..]);
    }
  }

  /** The loop of the source, chunk by chunk. */
  method PushChunks(f: seq<byte> -> seq<byte>, input: seq<byte>) returns (out: seq<byte>)
    ensures out == ByChunks(f, input)
  {
    out := [];
    var i := 0;
    while i < |input|
      invariant 0 <= i <= |input| && (i % 3 == 0 || i == |input|)
      invariant out == ByChunks(f, input[..i])
    {
      var next := if i + 3 <= |input| then i + 3 else |input|;
      ByChunksAppends(f, input[..i], input[i..next]);
      assert input[..i] + input[i..next] == input[..next];
      out := out + f(input[i..next]);
      i := next;
    }
    assert input[..i] == input;
  }

  method Base64Encode(input: seq<byte>) returns (out: seq<byte>)
    ensures Decode(out) == Some(input) && out == Encode(input)
    ensures |out| == (|input| + 2) / 3 * 4
  {
    out := PushChunks(EncodeChunk, input);
    EncodedLength(input);
    DecodeUndoesEncode(input);
  }

  lemma EncodedLength(input: seq<byte>)
    ensures |Encode(input)| == (|input| + 2) / 3 * 4
  {
    ByChunksLength(EncodeChunk, input);
  }

  // ----- Reading it back -----

  function DecodeChunk(t: seq<byte>): Option<seq<byte>>
    requires |t| == 4
  {
    var a, b := ValueOf(t[0]), ValueOf(t[1]);
    if a.None? || b.None? then None
    else
      if t[2] == PAD && t[3] == PAD then Some([Packed(a.value, b.value, 0, 0) / 65536 % 256])
      else
        var c := ValueOf(t[2]);
        if c.None? then None
        else
          if t[3] == PAD then
            var n := Packed(a.value, b.value, c.value, 0);
            Some([n / 65536 % 256, n / 256 % 256])
          else
            var d := ValueOf(t[3]);
            if d.None? then None
            else
              var n := Packed(a.value, b.value, c.value, d.value);
              Some([n / 65536 % 256, n / 256 % 256, n % 256])
  }

  /** Whole quanta; a quantum shorter than three octets ends the input. */
  function Decode(t: seq<byte>): Option<seq<byte>> {
    if t == [] then Some([])
    else if |t| < 4 then None
    else
      var first := DecodeChunk(t[..4]);
      if first.None? then None
      else if |t| == 4 then first
      else if |first.value| < 3 then None
      else
        var rest := Decode(t[4..]);
        if rest.None? then None else Some(first.value + rest.value)
  }

  function Packed(a: nat, b: nat, c: nat, d: nat): nat {
    a * 262144 + b * 4096 + c * 64 + d
  }

  function Unpacked(n: nat): seq<byte> {
    [n / 65536 % 256, n / 256 % 256, n % 256]
  }

  lemma DecodeEmitted(octets: nat, a: nat, b: nat, c: nat, d: nat)
    requires 1 <= octets <= 3 && a < 64 && b < 64 && c < 64 && d < 64
    requires (octets < 2 ==> c == 0) && (octets < 3 ==> d == 0)
    ensures DecodeChunk(Emit(octets, a, b, c, d)) == Some(Unpacked(Packed(a, b, c, d))[..octets])
  {
    SymbolRoundTrip(a);
    SymbolRoundTrip(b);
    SymbolRoundTrip(c);
    SymbolRoundTrip(d);
    var u := Unpacked(Packed(a, b, c, d));
    assert u[..1] == [u[0]] && u[..2] == [u[0], u[1]] && u[..3] == u;
  }

  lemma Parts(x: byte, y: byte, z: byte) returns (a: nat, b: nat, c: nat, d: nat)
    ensures var n := Group(x, y, z);
      a == n / 262144 % 64 && b == n / 4096 % 64 && c == n / 64 % 64 && d == n % 64
    ensures Unpacked(Packed(a, b, c, d)) == [x, y, z]
    ensures (z == 0 ==> d == 0) && (y == 0 && z == 0 ==> c == 0)
  {
    var n := Group(x, y, z);
    a, b, c, d := n / 262144 % 64, n / 4096 % 64, n / 64 % 64, n % 64;
    SextetsOf(n);
    assert Packed(a, b, c, d) == n;
    Octets(x, y, z);
    if z == 0 {
      PaddingIsEmpty(x, y);
    }
  }

  lemma ChunkRoundTrip(chunk: seq<byte>)
    requires 1 <= |chunk| <= 3
    ensures DecodeChunk(EncodeChunk(chunk)) == Some(chunk)
  {
    var x, y, z := At(chunk, 0), At(chunk, 1), At(chunk, 2);
    var a, b, c, d := Parts(x, y, z);
    DecodeEmitted(|chunk|, a, b, c, d);
    assert chunk == [x, y, z][..|chunk|];
  }

  lemma Octets(x: byte, y: byte, z: byte)
    ensures var n := Group(x, y, z);
      n < 16777216 && n / 65536 % 256 == x && n / 256 % 256 == y && n % 256 == z
  {
    var n := Group(x, y, z);
    assert n / 65536 == x;
    assert n / 256 == x as int * 256 + y;
  }

  lemma SextetsOf(n: nat)
    requires n < 16777216
    ensures n / 262144 % 64 * 262144 + n / 4096 % 64 * 4096 + n / 64 % 64 * 64 + n % 64 == n
  {
    var q, r := n / 64, n / 4096;
    assert r == q / 64 && n / 262144 == r / 64 < 64;
    assert n == q * 64 + n % 64 && q == r * 64 + q % 64 && r == r / 64 * 64 + r % 64;
  }

  /** Missing octets leave the padded sextets empty. */
  lemma PaddingIsEmpty(x: byte, y: byte)
    ensures Group(x, y, 0) % 64 == 0
    ensures Group(x, 0, 0) / 64 % 64 == 0
  {
    assert Group(x, y, 0) == (x as int * 1024 + y as int * 4) * 64;
    assert Group(x, 0, 0) / 64 == (x as int * 16) * 64;
  }

  lemma DecodePrefixed(head: seq<byte>, tail: seq<byte>)
    requires |head| == 4 && |tail| >= 4
    requires DecodeChunk(head).Some? && |DecodeChunk(head).value| == 3 && Decode(tail).Some?
    ensures Decode(head + tail) == Some(DecodeChunk(head).value + Decode(tail).value)
  {
    assert (head + tail)[..4] == head && (head + tail)[4..] == tail;
  }

  /** On every byte string the decoder undoes the encoder. */
  lemma {:induction false} DecodeUndoesEncode(input: seq<byte>)
    ensures Decode(Encode(input)) == Some(input)
  {
    if input == [] {
    } else if |input| <= 3 {
      ChunkRoundTrip(input);
      assert EncodeChunk(input)[..4] == EncodeChunk(input);
    } else {
      ChunkRoundTrip(input[..3]);
      DecodeUndoesEncode(input[3..]);
      EncodedLength(input[3..]);
      DecodePrefixed(EncodeChunk(input[..3]), Encode(input[3..]));
      assert input[..3] + input[3..] == input;
    }
  }

  /** So comparing encoded credentials is comparing credentials. */
  lemma EncodeIsInjective(a: seq<byte>, b: seq<byte>)
    ensures Encode(a) == Encode(b) <==> a == b
  {
    DecodeUndoesEncode(a);
    DecodeUndoesEncode(b);
  }

  lemma {:induction false} EncodedIsPrintable(input: seq<byte>, i: nat)
    requires i < |Encode(input)|
    ensures 43 <= Encode(input)[i] <= 122
  {
    if |input| > 3 && i >= 4 {
      EncodedIsPrintable(input[3..], i - 4);
    }
  }
}
