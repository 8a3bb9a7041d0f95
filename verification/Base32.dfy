/**
 The base32 codec of the two-factor secrets: an unmasked 32-bit accumulator
 that shifts bytes in and five-bit groups out (and the reverse), against the
 bit-string reading of section 6 of RFC 4648, without padding.

 A 32-bit word is its unsigned value: `<<` multiplies and drops what overflows,
 `>>>` halves, `&` with 31 or 255 is a remainder, and `|` with bits the shift
 has just cleared is an addition.
 */
module Base32 {

  const WORD := 0x1_0000_0000
  type word = v: nat | v < WORD
  type byte = b: nat | b < 256

  datatype DecodeResult = Decoded(bytes: seq<byte>) | InvalidSecret

  const ALPHABET := "ABCDEFGHIJKLMNOPQRSTUVWXYZ234567"

  /* ---- Word operations ---- */

  function Pow2(k: nat): (p: nat)
    ensures p > 0
  {
    if k == 0 then 1 else 2 * Pow2(k - 1)
  }

  lemma Pow2Word()
    ensures Pow2(5) == 32 && Pow2(8) == 256 && Pow2(32) == WORD
  {
    Pow2Sum(8, 8);
    Pow2Sum(16, 16);
  }

  lemma {:induction false} Pow2Sum(a: nat, b: nat)
    ensures Pow2(a + b) == Pow2(a) * Pow2(b)
  {
    if a > 0 {
      Pow2Sum(a - 1, b);
      Twice(Pow2(a - 1), Pow2(b));
    }
  }

  lemma Twice(x: nat, y: nat)
    ensures 2 * (x * y) == (2 * x) * y
  {
  }

  function ShiftLeft(v: word, k: nat): word {
    v * Pow2(k) % WORD
  }

  function ShiftRight(v: word, k: nat): word {
    if k == 0 then v else ShiftRight(v / 2, k - 1)
  }

  /** `(v << 8) | x` */
  function PushByte(v: word, x: byte): (r: word)
    ensures r == (v * 256 + x) % WORD
  {
    v * 256 % WORD + x
  }

  /** `(v << 5) | x` */
  function PushSymbol(v: word, x: nat): (r: word)
    requires x < 32
    ensures r == (v * 32 + x) % WORD
  {
    v * 32 % WORD + x
  }

  /* ---- Words as bit strings, most significant bit first ---- */

  /** The low n bits of the accumulator: the bits still waiting to be emitted. */
  function Low(v: nat, n: nat): (bits: seq<bool>)
    ensures |bits| == n
  {
    if n == 0 then [] else Low(v / 2, n - 1) + [v % 2 == 1]
  }

  function Zeros(n: nat): (bits: seq<bool>)
    ensures |bits| == n
  {
    seq(n, k => false)
  }

  function BitsOfBytes(bytes: seq<byte>): (bits: seq<bool>)
    ensures |bits| == 8 * |bytes|
  {
    if bytes == [] then [] else Low(bytes[0], 8) + BitsOfBytes(bytes[1..])
  }

  /** The number a bit string spells. */
  function Value(bits: seq<bool>): (v: nat)
    ensures v < Pow2(|bits|)
  {
    if bits == [] then 0 else 2 * Value(bits[..|bits| - 1]) + (if bits[|bits| - 1] then 1 else 0)
  }

  /* ---- Base32 as a map between bit strings and text ---- */

  function Symbol(group: seq<bool>): char
    requires |group| == 5
  {
    assert Pow2(5) == 32;
    Char(Value(group))
  }

  /** Groups of five bits, the last one padded with zeros on the right. */
  function TextOfBits(bits: seq<bool>): (text: string)
  {
    if bits == [] then ""
    else if |bits| < 5 then [Symbol(bits + Zeros(5 - |bits|))]
    else [Symbol(bits[..5])] + TextOfBits(bits[5..])
  }

  /** Position of c in the alphabet, or -1: A..Z are 0..25, 2..7 are 26..31. */
  function AlphabetIndex(c: char): (k: int)
    ensures -1 <= k < 32
  {
    if 'A' <= c <= 'Z' then c as int - 'A' as int
    else if '2' <= c <= '7' then c as int - '2' as int + 26
    else -1
  }

  /** The symbol for a five-bit value; AlphabetOrder relates it to the listed alphabet. */
  function Char(k: nat): (c: char)
    requires k < 32
    ensures AlphabetIndex(c) == k
  {
    if k < 26 then ('A' as int + k) as char else ('2' as int + k - 26) as char
  }

  lemma AlphabetOrder(k: nat)
    requires k < 32
    ensures Char(k) == ALPHABET[k]
    ensures forall c: char :: AlphabetIndex(c) == k ==> c == Char(k)
  {
    if k < 16 {
      assert ALPHABET[..16] == "ABCDEFGHIJKLMNOP";
      assert ALPHABET[k] == "ABCDEFGHIJKLMNOP"[k];
    } else {
      AlphabetHigh(k);
    }
  }

  lemma AlphabetHigh(k: nat)
    requires 16 <= k < 32
    ensures ALPHABET[k] == Char(k)
  {
    assert ALPHABET[16..] == "QRSTUVWXYZ234567";
    assert ALPHABET[k] == "QRSTUVWXYZ234567"[k - 16];
  }

  predicate ValidText(text: string) {
    forall k :: 0 <= k < |text| ==> AlphabetIndex(text[k]) >= 0
  }

  function SymbolBits(c: char): (bits: seq<bool>) {
    if AlphabetIndex(c) < 0 then [] else Low(AlphabetIndex(c), 5)
  }

  function BitsOfText(text: string): (bits: seq<bool>) {
    if text == "" then [] else SymbolBits(text[0]) + BitsOfText(text[1..])
  }

  /** Whole bytes only; up to seven trailing bits are dropped. */
  function BytesOfBits(bits: seq<bool>): (bytes: seq<byte>)
  {
    if |bits| < 8 then []
    else
      assert Pow2(8) == 256;
      [Value(bits[..8])] + BytesOfBits(bits[8..])
  }

  /** What the decoder strips and folds before reading symbols (ASCII only). */
  function Clean(input: string): string {
    if input == "" then ""
    else (if IsSeparator(input[0]) then "" else [Upper(input[0])]) + Clean(input[1..])
  }

  predicate IsSeparator(c: char) {
    c == ' ' || '\t' <= c <= '\r' || c == '=' || c == '-'
  }

  function Upper(c: char): char {
    if 'a' <= c <= 'z' then (c as int - 32) as char else c
  }

  /* ---- Bits under the word operations ---- */

  lemma {:induction false} ValueOfLow(v: nat, n: nat)
    requires v < Pow2(n)
    ensures Value(Low(v, n)) == v
  {
    if n > 0 {
      ValueOfLow(v / 2, n - 1);
      assert Low(v, n)[..n - 1] == Low(v / 2, n - 1);
    }
  }

  lemma {:induction false} LowOfValue(bits: seq<bool>)
    ensures Low(Value(bits), |bits|) == bits
  {
    if bits != [] {
      LowOfValue(bits[..|bits| - 1]);
    }
  }

  /** Overflow never reaches the pending bits. */
  lemma {:induction false} LowOfRemainder(v: nat, n: nat, m: nat)
    requires n <= m
    ensures Low(v % Pow2(m), n) == Low(v, n)
  {
    if n > 0 {
      HalfOfRemainder(v, Pow2(m - 1));
      LowOfRemainder(v / 2, n - 1, m - 1);
    }
  }

  lemma HalfOfRemainder(v: nat, p: nat)
    requires p > 0
    ensures v % (2 * p) / 2 == v / 2 % p && v % (2 * p) % 2 == v % 2
  {
    var q, r := v / (2 * p), v % (2 * p);
    assert v == 2 * p * q + r;
    assert v == 2 * (p * q) + r;
    assert v / 2 == p * q + r / 2;
    RemainderUnique(v / 2, p, q, r / 2);
  }

  lemma RemainderUnique(x: nat, p: nat, q: nat, r: nat)
    requires r < p && x == p * q + r
    ensures x % p == r
  {
    var d: int := x / p - q;
    assert p * d == r - x % p by { assert p * (x / p) == x - x % p; }
    assert d == 0 by { MultipleBelow(p, d); }
  }

  lemma MultipleBelow(p: int, d: int)
    requires p > 0 && -p < p * d < p
    ensures d == 0
  {
  }

  lemma {:induction false} LowOfSum(v: nat, x: nat, n: nat, k: nat)
    requires x < Pow2(k)
    ensures Low(v * Pow2(k) + x, n + k) == Low(v, n) + Low(x, k)
  {
    if k == 0 {
      assert v * Pow2(0) + x == v;
    } else {
      var p := Pow2(k - 1);
      assert v * Pow2(k) + x == 2 * (v * p) + x by { assert v * (2 * p) == 2 * (v * p); }
      assert (v * Pow2(k) + x) / 2 == v * p + x / 2;
      LowOfSum(v, x / 2, n, k - 1);
      assert Low(v, n) + (Low(x / 2, k - 1) + [x % 2 == 1]) == (Low(v, n) + Low(x / 2, k - 1)) + [x % 2 == 1];
    }
  }

  /** Shifting bits in appends them to the pending ones, whatever overflows. */
  lemma PushBits(v: word, k: nat, x: nat, n: nat)
    requires x < Pow2(k) && n + k <= 32
    ensures Low((v * Pow2(k) + x) % WORD, n + k) == Low(v, n) + Low(x, k)
  {
    LowOfOverflow(v * Pow2(k) + x, n + k);
    LowOfSum(v, x, n, k);
  }

  lemma BytePushed(v: word, x: byte, n: nat)
    requires n <= 24
    ensures Low(PushByte(v, x), n + 8) == Low(v, n) + Low(x, 8)
  {
    hide Low, PushByte;
    Pow2Word();
    PushBits(v, 8, x, n);
  }

  lemma SymbolPushed(v: word, x: nat, n: nat)
    requires x < 32 && n <= 27
    ensures Low(PushSymbol(v, x), n + 5) == Low(v, n) + Low(x, 5)
  {
    hide Low, PushSymbol;
    Pow2Word();
    PushBits(v, 5, x, n);
  }

  lemma LowOfOverflow(v: nat, n: nat)
    requires n <= 32
    ensures Low(v % WORD, n) == Low(v, n)
  {
    Pow2Word();
    LowOfRemainder(v, n, 32);
  }

  lemma {:induction false} LowOfShiftRight(v: word, k: nat, n: nat)
    ensures Low(ShiftRight(v, k), n) == Low(v, n + k)[..n]
  {
    if k > 0 {
      LowOfShiftRight(v / 2, k - 1, n);
    }
  }

  /** `(value >>> k) & (2^n - 1)` reads the first n of n + k pending bits. */
  lemma ReadBits(v: word, k: nat, n: nat)
    ensures ShiftRight(v, k) % Pow2(n) == Value(Low(v, n + k)[..n])
  {
    var w := ShiftRight(v, k);
    LowOfShiftRight(v, k, n);
    LowOfRemainder(w, n, n);
    ValueOfLow(w % Pow2(n), n);
  }

  /** `(value << k) & 31` pads the last pending bits with k zeros. */
  lemma PadBits(v: word, k: nat)
    requires 1 <= k <= 4
    ensures ShiftLeft(v, k) % 32 == Value(Low(v, 5 - k) + Zeros(k))
  {
    assert Pow2(5) == 32;
    LowOfOverflow(v * Pow2(k), 5);
    LowOfSum(v, 0, 5 - k, k);
    LowOfZero(k);
    var w := ShiftLeft(v, k);
    LowOfRemainder(w, 5, 5);
    ValueOfLow(w % 32, 5);
  }

  lemma {:induction false} LowOfZero(k: nat)
    ensures Low(0, k) == Zeros(k)
  {
    if k > 0 { LowOfZero(k - 1); }
  }

  /* ---- The round trip on bit strings ---- */

  lemma SymbolRoundTrip(group: seq<bool>)
    requires |group| == 5
    ensures AlphabetIndex(Symbol(group)) >= 0 && SymbolBits(Symbol(group)) == group
  {
    LowOfValue(group);
  }

  lemma {:induction false} TextIsValid(bits: seq<bool>)
    ensures ValidText(TextOfBits(bits))
    decreases |bits|
  {
    if bits != [] {
      TextIsValid(if |bits| < 5 then [] else bits[5..]);
      SymbolRoundTrip(if |bits| < 5 then bits + Zeros(5 - |bits|) else bits[..5]);
    }
  }

  /** Encoding keeps every bit, and appends fewer than five zeros. */
  lemma {:induction false} TextRoundTrip(bits: seq<bool>) returns (pad: nat)
    ensures pad < 5
    ensures BitsOfText(TextOfBits(bits)) == bits + Zeros(pad)
  {
    if |bits| < 5 {
      pad := if bits == [] then 0 else 5 - |bits|;
      if bits != [] { SymbolRoundTrip(bits + Zeros(pad)); }
    } else {
      pad := TextRoundTrip(bits[5..]);
      SymbolRoundTrip(bits[..5]);
      assert TextOfBits(bits)[1..] == TextOfBits(bits[5..]);
      assert bits + Zeros(pad) == bits[..5] + (bits[5..] + Zeros(pad));
    }
  }

  lemma BytesStep(b: byte, rest: seq<bool>)
    ensures BytesOfBits(Low(b, 8) + rest) == [b] + BytesOfBits(rest)
  {
    var group := Low(b, 8);
    assert Pow2(8) == 256;
    ValueOfLow(b, 8);
    assert (group + rest)[..8] == group && (group + rest)[8..] == rest;
  }

  /** A tail shorter than a byte is dropped. */
  lemma {:induction false} BytesRoundTrip(bytes: seq<byte>, pad: nat)
    requires pad < 8
    ensures BytesOfBits(BitsOfBytes(bytes) + Zeros(pad)) == bytes
  {
    if bytes != [] {
      var tail := BitsOfBytes(bytes[1..]) + Zeros(pad);
      BytesStep(bytes[0], tail);
      BytesRoundTrip(bytes[1..], pad);
      assert BitsOfBytes(bytes) + Zeros(pad) == Low(bytes[0], 8) + tail;
    } else {
      assert BitsOfBytes(bytes) + Zeros(pad) == Zeros(pad);
    }
  }

  /* ---- The two loops ---- */

  method Encode(buffer: seq<byte>) returns (output: string)
    ensures output == TextOfBits(BitsOfBytes(buffer))
  {
    var bits: nat := 0;
    var value: word := 0;
    output := "";
    assert buffer[0..] == buffer && Unwritten(value, bits, buffer) == BitsOfBytes(buffer);
    for i := 0 to |buffer|
      invariant bits < 5
      invariant output + TextOfBits(Unwritten(value, bits, buffer[i..])) == TextOfBits(BitsOfBytes(buffer))
    {
      ReadByte(value, bits, buffer[i..]);
      assert buffer[i..][1..] == buffer[i + 1..];
      value := PushByte(value, buffer[i]);
      bits := bits + 8;
      while bits >= 5
        invariant bits < 13
        invariant output + TextOfBits(Unwritten(value, bits, buffer[i + 1..])) == TextOfBits(BitsOfBytes(buffer))
      {
        EmitSymbol(value, bits, BitsOfBytes(buffer[i + 1..]));
        output := output + [Char(ShiftRight(value, bits - 5) % 32)];
        bits := bits - 5;
      }
    }
    assert Unwritten(value, bits, []) == Low(value, bits);
    if bits > 0 {
      PadBits(value, 5 - bits);
      output := output + [Char(ShiftLeft(value, 5 - bits) % 32)];
    }
  }

  /** The encoder's pending bits, then those of the bytes it has not read. */
  function Unwritten(value: word, bits: nat, bytes: seq<byte>): seq<bool> {
    Low(value, bits) + BitsOfBytes(bytes)
  }

  lemma ReadByte(value: word, bits: nat, bytes: seq<byte>)
    requires bytes != [] && bits < 5
    ensures Unwritten(PushByte(value, bytes[0]), bits + 8, bytes[1..]) == Unwritten(value, bits, bytes)
  {
    hide Low, PushByte;
    BytePushed(value, bytes[0], bits);
    Append(Low(value, bits), Low(bytes[0], 8), BitsOfBytes(bytes[1..]));
  }

  lemma {:induction false} LowSplit(v: word, n: nat, k: nat)
    ensures Low(v, n + k) == Low(v, n + k)[..n] + Low(v, k)
  {
    if k > 0 { LowSplit(v / 2, n, k - 1); }
  }

  lemma EmitSymbol(value: word, bits: nat, rest: seq<bool>)
    requires bits >= 5
    ensures TextOfBits(Low(value, bits) + rest)
         == [Char(ShiftRight(value, bits - 5) % 32)] + TextOfBits(Low(value, bits - 5) + rest)
  {
    assert Pow2(5) == 32;
    ReadBits(value, bits - 5, 5);
    LowSplit(value, 5, bits - 5);
    var all := Low(value, bits) + rest;
    assert all[..5] == Low(value, bits)[..5];
    assert all[5..] == Low(value, bits - 5) + rest;
  }

  method Decode(input: string) returns (result: DecodeResult)
    ensures result == if ValidText(Clean(input)) then Decoded(BytesOfBits(BitsOfText(Clean(input)))) else InvalidSecret
  {
    result := DecodeClean(Clean(input));
  }

  method DecodeClean(clean: string) returns (result: DecodeResult)
    ensures result == if ValidText(clean) then Decoded(BytesOfBits(BitsOfText(clean))) else InvalidSecret
  {
    var bits: nat := 0;
    var value: word := 0;
    var bytes: seq<byte> := [];
    DecodeStart(clean);
    for i := 0 to |clean|
      invariant bits < 8
      invariant forall k :: 0 <= k < i ==> AlphabetIndex(clean[k]) >= 0
      invariant Decoding(clean, i, value, bits, bytes)
    {
      var index := AlphabetIndex(clean[i]);
      if index < 0 {
        return InvalidSecret;
      }
      ReadSymbol(clean, i, value, bits, bytes);
      value := PushSymbol(value, index);
      bits := bits + 5;
      if bits >= 8 {
        EmitByte(clean, i + 1, value, bits, bytes);
        bytes := bytes + [ShiftRight(value, bits - 8) % 256];
        bits := bits - 8;
      }
    }
    DecodeEnd(clean, value, bits, bytes);
    result := Decoded(bytes);
  }

  /** The decoder's pending bits, then those of the text it has not read. */
  function Unread(value: word, bits: nat, text: string): seq<bool> {
    Low(value, bits) + BitsOfText(text)
  }

  /** What the decoder has emitted, and what is still to come, is the decoding. */
  ghost predicate Decoding(text: string, i: nat, value: word, bits: nat, bytes: seq<byte>)
    requires i <= |text|
  {
    bytes + BytesOfBits(Unread(value, bits, text[i..])) == BytesOfBits(BitsOfText(text))
  }

  lemma DecodeStart(text: string)
    ensures Decoding(text, 0, 0, 0, [])
  {
    assert text[0..] == text && Unread(0, 0, text) == BitsOfText(text);
  }

  lemma DecodeEnd(text: string, value: word, bits: nat, bytes: seq<byte>)
    requires bits < 8 && Decoding(text, |text|, value, bits, bytes)
    ensures bytes == BytesOfBits(BitsOfText(text))
  {
    assert Unread(value, bits, text[|text|..]) == Low(value, bits);
  }

  lemma ReadSymbol(text: string, i: nat, value: word, bits: nat, bytes: seq<byte>)
    requires i < |text| && AlphabetIndex(text[i]) >= 0 && bits < 8
    requires Decoding(text, i, value, bits, bytes)
    ensures Decoding(text, i + 1, PushSymbol(value, AlphabetIndex(text[i])), bits + 5, bytes)
  {
    assert text[i..][1..] == text[i + 1..];
    ReadFirst(text[i..], value, bits);
  }

  lemma ReadFirst(text: string, value: word, bits: nat)
    requires text != "" && AlphabetIndex(text[0]) >= 0 && bits < 8
    ensures Unread(PushSymbol(value, AlphabetIndex(text[0])), bits + 5, text[1..]) == Unread(value, bits, text)
  {
    hide Low, PushSymbol;
    var index := AlphabetIndex(text[0]);
    SymbolPushed(value, index, bits);
    Append(Low(value, bits), Low(index, 5), BitsOfText(text[1..]));
  }

  lemma Append(a: seq<bool>, b: seq<bool>, c: seq<bool>)
    ensures (a + b) + c == a + (b + c)
  {
  }

  lemma EmitByte(text: string, i: nat, value: word, bits: nat, bytes: seq<byte>)
    requires i <= |text| && bits >= 8
    requires Decoding(text, i, value, bits, bytes)
    ensures Decoding(text, i, value, bits - 8, bytes + [ShiftRight(value, bits - 8) % 256])
  {
    hide Unread, BytesOfBits, ShiftRight;
    var b, rest := ShiftRight(value, bits - 8) % 256, BytesOfBits(Unread(value, bits - 8, text[i..]));
    FirstByte(text[i..], value, bits);
    assert bytes + ([b] + rest) == (bytes + [b]) + rest;
  }

  lemma FirstByte(text: string, value: word, bits: nat)
    requires bits >= 8
    ensures BytesOfBits(Unread(value, bits, text)) == [ShiftRight(value, bits - 8) % 256] + BytesOfBits(Unread(value, bits - 8, text))
  {
    Pow2Word();
    ReadBits(value, bits - 8, 8);
    LowSplit(value, 8, bits - 8);
    var all := Unread(value, bits, text);
    assert all[..8] == Low(value, bits)[..8];
    assert all[8..] == Unread(value, bits - 8, text);
  }

  /* ---- Main result ---- */

  /**
   Decoding inverts encoding on every byte sequence, also after the text was
   lower-cased, grouped with blanks or dashes, or padded with '='.
   */
  lemma DecodeInvertsEncode(buffer: seq<byte>, typed: string)
    requires Clean(typed) == TextOfBits(BitsOfBytes(buffer))
    ensures ValidText(Clean(typed))
    ensures BytesOfBits(BitsOfText(Clean(typed))) == buffer
  {
    var pad := TextRoundTrip(BitsOfBytes(buffer));
    BytesRoundTrip(buffer, pad);
    TextIsValid(BitsOfBytes(buffer));
  }

  /** Encoded text has nothing to strip or fold. */
  lemma {:induction false} EncodedTextIsClean(bits: seq<bool>)
    ensures Clean(TextOfBits(bits)) == TextOfBits(bits)
    decreases |bits|
  {
    if bits != [] {
      var group := if |bits| < 5 then bits + Zeros(5 - |bits|) else bits[..5];
      var rest := if |bits| < 5 then [] else bits[5..];
      EncodedTextIsClean(rest);
      assert TextOfBits(bits)[1..] == TextOfBits(rest);
    }
  }

  method RoundTrip(buffer: seq<byte>) returns (result: DecodeResult)
    ensures result == Decoded(buffer)
  {
    var text := Encode(buffer);
    EncodedTextIsClean(BitsOfBytes(buffer));
    DecodeInvertsEncode(buffer, text);
    result := Decode(text);
  }

  lemma {:induction false} CleanConcat(a: string, b: string)
    ensures Clean(a + b) == Clean(a) + Clean(b)
  {
    hide IsSeparator, Upper;
    if a == "" {
      assert a + b == b;
    } else {
      CleanConcat(a[1..], b);
      assert (a + b)[1..] == a[1..] + b && (a + b)[0] == a[0];
      var first := if IsSeparator(a[0]) then "" else [Upper(a[0])];
      assert Clean(a) == first + Clean(a[1..]);
      assert Clean(a + b) == first + (Clean(a[1..]) + Clean(b));
      hide Clean;
      assert first + (Clean(a[1..]) + Clean(b)) == (first + Clean(a[1..])) + Clean(b);
    }
  }

  /** What one character contributes. */
  lemma CleanAround(a: string, c: char, b: string)
    ensures Clean(a + [c] + b) == Clean(a) + Clean([c]) + Clean(b)
  {
    hide Clean;
    CleanConcat(a + [c], b);
    CleanConcat(a, [c]);
  }

  lemma CleanOne(c: char)
    ensures Clean([c]) == if IsSeparator(c) then "" else [Upper(c)]
  {
    hide IsSeparator, Upper;
    assert [c][1..] == "";
    assert Clean("") == "";
  }

  /** Blanks, `=` and `-` may stand anywhere in the text, and small letters for capitals; a character of the alphabet counts as it is. */
  lemma CharacterReadsAs(a: string, c: char, b: string)
    ensures c == ' ' || c == '\t' || c == '\n' || c == '\r' || c == '=' || c == '-' ==> Clean(a + [c] + b) == Clean(a + b)
    ensures 'a' <= c <= 'z' ==> Clean(a + [c] + b) == Clean(a + [('A' as int + (c as int - 'a' as int)) as char] + b)
    ensures 'A' <= c <= 'Z' || '2' <= c <= '7' ==> Clean(a + [c] + b) == Clean(a) + [c] + Clean(b)
  {
    hide Clean;
    CleanAround(a, c, b);
    CleanOne(c);
    CleanConcat(a, b);
    if 'a' <= c <= 'z' {
      var capital := ('A' as int + (c as int - 'a' as int)) as char;
      CleanAround(a, capital, b);
      CleanOne(capital);
    }
  }
}
