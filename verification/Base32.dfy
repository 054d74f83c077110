/** RFC 4648 base32, section 6, uppercase and unpadded, with the zero pad bits
    section 3.5 calls canonical.

    The program keeps unread bits in a `u16`. Shifting left drops its high bits
    on purpose, so the buffer is modelled with its wrap-around written out. A
    shifted buffer has zeros where the next byte or letter goes, so the
    program's bitwise-or is an addition here, and its masks are remainders. */
module Base32 {
  import opened Wrappers

  type Byte = x: int | 0 <= x < 256
  type Bit = x: int | 0 <= x < 2

  const U16 := 0x1_0000

  const ALPHABET: string := "ABCDEFGHIJKLMNOPQRSTUVWXYZ234567"

  // ----- bits, bytes and letters

  function ByteBits(v: Byte): (bits: seq<Bit>) {
    [v / 128 % 2, v / 64 % 2, v / 32 % 2, v / 16 % 2, v / 8 % 2, v / 4 % 2, v / 2 % 2, v % 2]
  }

  function FiveBits(v: nat): (bits: seq<Bit>)
    ensures |bits| == 5
  {
    [v / 16 % 2, v / 8 % 2, v / 4 % 2, v / 2 % 2, v % 2]
  }

  /** The number a run of bits writes, most significant bit first. */
  function Value(bits: seq<Bit>): (v: nat) {
    if bits == [] then 0 else 2 * Value(bits[..|bits| - 1]) + bits[|bits| - 1] as int
  }

  /** The bits of a byte string, in order. */
  function BitsOf(bytes: seq<Byte>): (bits: seq<Bit>)
    ensures |bits| == 8 * |bytes|
  {
    if bytes == [] then [] else BitsOf(bytes[..|bytes| - 1]) + ByteBits(bytes[|bytes| - 1])
  }

  function Zeros(n: nat): (z: seq<Bit>)
    ensures |z| == n && forall i | 0 <= i < n :: z[i] == 0
  {
    seq(n, _ => 0)
  }

  predicate IsLetter(c: char) { 'A' <= c <= 'Z' || '2' <= c <= '7' }

  predicate AllLetters(text: string) { forall i | 0 <= i < |text| :: IsLetter(text[i]) }

  function ValueOf(c: char): (v: nat)
    requires IsLetter(c)
    ensures v < 32
  {
    if 'A' <= c <= 'Z' then c as int - 'A' as int else c as int - '2' as int + 26
  }

  /** The alphabet of section 6, table 3. */
  function Letter(v: nat): (c: char)
    requires v < 32
    ensures IsLetter(c) && ValueOf(c) == v
  {
    if v < 26 then ('A' as int + v) as char else ('2' as int + (v - 26)) as char
  }

  lemma LetterIsTheAlphabets(v: nat)
    requires v < 32
    ensures Letter(v) == ALPHABET[v]
  {}

  /** The bits a run of letters stands for. */
  function LetterBits(text: string): (bits: seq<Bit>)
    requires AllLetters(text)
    ensures |bits| == 5 * |text|
  {
    if text == "" then []
    else LetterBits(text[..|text| - 1]) + FiveBits(ValueOf(text[|text| - 1]))
  }

  /** Section 6: a bit string whose length five divides, five bits to a letter.
      Defined on bits, with no buffer. */
  function Letters(bits: seq<Bit>): (text: string)
    requires |bits| % 5 == 0
    ensures |text| == |bits| / 5 && AllLetters(text)
    decreases |bits|
  {
    if bits == [] then ""
    else
      var last := FiveValue(bits[|bits| - 5..]);
      Letters(bits[..|bits| - 5]) + [Letter(last)]
  }

  function FiveValue(b: seq<Bit>): (v: nat)
    requires |b| == 5
    ensures v < 32
  {
    var n: seq<int> := b;
    16 * n[0] + 8 * n[1] + 4 * n[2] + 2 * n[3] + n[4]
  }

  function PadLength(n: nat): (k: nat)
    ensures k < 5 && (n + k) % 5 == 0
  {
    if n % 5 == 0 then 0 else 5 - n % 5
  }

  /** The one encoding of `bytes`: their bits, zero-padded to whole letters. */
  function EncodingOf(bytes: seq<Byte>): string {
    var bits := BitsOf(bytes);
    Letters(bits + Zeros(PadLength(|bits|)))
  }

  function ToUpper(c: char): char {
    if 'a' <= c <= 'z' then (c as int - 32) as char else c
  }

  predicate IsSeparator(c: char) { c == '-' || c == ' ' }

  /** A code as typed, with the separators people add taken out and ASCII
      letters uppercased. */
  function Tidy(text: string): string {
    if text == "" then ""
    else
      var last := text[|text| - 1];
      Tidy(text[..|text| - 1]) + if IsSeparator(last) then "" else [ToUpper(last)]
  }

  // ----- runs of bits as numbers

  function Pow2(n: nat): (p: nat)
    ensures p > 0
  {
    if n == 0 then 1 else 2 * Pow2(n - 1)
  }

  lemma {:induction false} ValueAppend(a: seq<Bit>, b: seq<Bit>)
    ensures Value(a + b) == Value(a) * Pow2(|b|) + Value(b)
  {
    if b == [] {
      assert a + b == a;
    } else {
      var n := |b| - 1;
      ValueAppend(a, b[..n]);
      assert (a + b)[..|a + b| - 1] == a + b[..n];
      assert Value(a) * Pow2(n + 1) == 2 * (Value(a) * Pow2(n));
    }
  }

  lemma {:induction false} ValueBound(bits: seq<Bit>)
    ensures Value(bits) < Pow2(|bits|)
  {
    if bits != [] { ValueBound(bits[..|bits| - 1]); }
  }

  lemma {:induction false} ValueInjective(a: seq<Bit>, b: seq<Bit>)
    requires |a| == |b| && Value(a) == Value(b)
    ensures a == b
  {
    if a != [] {
      var n := |a| - 1;
      ValueInjective(a[..n], b[..n]);
      assert a == a[..n] + [a[n]] && b == b[..n] + [b[n]];
    }
  }

  lemma ValueOfTwo(x: Bit, y: Bit)
    ensures Value([x, y]) == 2 * (x as int) + y as int
  {
    assert [x, y][..1] == [x] && [x][..0] == [];
    assert Value([x]) == x;
  }

  lemma FiveIsValue(b: seq<Bit>)
    requires |b| == 5
    ensures Value(b) == FiveValue(b)
  {
    assert b[..5] == b;
    assert b[..4][..3] == b[..3] && b[..3][..2] == [b[0], b[1]];
    ValueOfTwo(b[0], b[1]);
    assert Value(b[..3]) == 2 * Value([b[0], b[1]]) + b[2];
    assert Value(b[..4]) == 2 * Value(b[..3]) + b[3];
  }

  lemma EightIsValue(b: seq<Bit>)
    requires |b| == 8
    ensures Value(b) == 128 * (b[0] as int) + 64 * (b[1] as int) + 32 * (b[2] as int) + FiveValue(b[3..])
  {
    var high, low := b[..3], b[3..];
    assert b == high + low && high[..2] == [b[0], b[1]];
    ValueOfTwo(b[0], b[1]);
    assert Value(high) == 2 * Value([b[0], b[1]]) + b[2];
    FiveIsValue(low);
    ValueAppend(high, low);
    assert Pow2(5) == 32;
    hide Value, FiveValue;
  }

  lemma ByteBitsValue(v: Byte)
    ensures Value(ByteBits(v)) == v
  {
    EightIsValue(ByteBits(v));
    hide Value;
    Binary(v);
  }

  lemma Binary(v: nat)
    requires v < 256
    ensures 128 * (v / 128 % 2) + 64 * (v / 64 % 2) + 32 * (v / 32 % 2) + 16 * (v / 16 % 2)
            + 8 * (v / 8 % 2) + 4 * (v / 4 % 2) + 2 * (v / 2 % 2) + v % 2 == v
  {
    assert v / 4 == v / 2 / 2 && v / 8 == v / 4 / 2 && v / 16 == v / 8 / 2;
    assert v / 32 == v / 16 / 2 && v / 64 == v / 32 / 2 && v / 128 == v / 64 / 2;
  }

  lemma FiveBitsValue(v: nat)
    requires v < 32
    ensures Value(FiveBits(v)) == v
  {
    FiveIsValue(FiveBits(v));
  }

  // ----- the shift buffer: its low `|unread|` bits are the unread bits

  ghost predicate Holds(buffer: nat, unread: seq<Bit>) {
    |unread| <= 12 && buffer < U16 && buffer % Pow2(|unread|) == Value(unread)
  }

  lemma SmallPowers()
    ensures Pow2(0) == 1 && Pow2(1) == 2 && Pow2(2) == 4 && Pow2(3) == 8 && Pow2(4) == 16
    ensures Pow2(5) == 32 && Pow2(6) == 64 && Pow2(7) == 128 && Pow2(8) == 256
    ensures Pow2(16) == U16
  {
    assert Pow2(12) == 4096;
  }

  lemma MulBounds(p: nat, d: int)
    ensures d >= 1 ==> p * d >= p
    ensures d <= -1 ==> p * d <= 0 - p
  {
    assert p * d == p * (d - 1) + p && p * d == p * (d + 1) - p;
    if d >= 1 { assert p * (d - 1) >= 0; }
    if d <= -1 { assert p * (d + 1) <= 0; }
  }

  lemma DivUnique(v: nat, p: nat, q: int, r: int)
    requires p > 0 && v == p * q + r && 0 <= r < p
    ensures v / p == q && v % p == r
  {
    var d := v / p - q;
    assert v == p * (v / p) + v % p;
    assert p * d == p * (v / p) - p * q;
    MulBounds(p, d);
  }

  lemma {:induction false} PowAdd(a: nat, b: nat)
    ensures Pow2(a + b) == Pow2(a) * Pow2(b)
  {
    if a > 0 { PowAdd(a - 1, b); }
  }

  /** A shift by `w` into a buffer that drops everything from `p * w * k` up:
      below that, nothing is lost. */
  lemma ShiftIn(buffer: nat, p: nat, w: nat, k: nat, value: nat)
    requires p > 0 && w > 0 && k > 0 && value < w
    ensures p * w > 0 && p * w * k > 0
    ensures (buffer * w + value) % (p * w * k) % (p * w) == buffer % p * w + value
  {
    var whole, m := buffer * w + value, p * w;
    var q, u := buffer / p, buffer % p;
    assert u * w <= (p - 1) * w;
    assert (p * q + u) * w == m * q + u * w;
    DivUnique(whole, m, q, u * w + value);
    var Q, R := whole / (m * k), whole % (m * k);
    assert whole == m * k * Q + R && R == m * (R / m) + R % m;
    assert m * k * Q == m * (k * Q);
    DivUnique(whole, m, k * Q + R / m, R % m);
  }

  lemma ShiftOut(buffer: nat, p: nat, w: nat, high: nat, low: nat)
    requires p > 0 && w > 0 && high < w && low < p
    requires w * p > 0 && buffer % (w * p) == high * p + low
    ensures buffer / p % w == high && buffer % p == low
  {
    var q := buffer / (w * p);
    assert buffer == w * p * q + (high * p + low);
    assert w * p * q == p * (w * q);
    DivUnique(buffer, p, w * q + high, low);
    DivUnique(w * q + high, w, q, high);
  }

  lemma Padded(buffer: nat, p: nat, shift: nat, u: nat)
    requires (p, shift) in {(2, 16), (4, 8), (8, 4), (16, 2)} && buffer % p == u
    ensures buffer * shift % U16 % 32 == u * shift
  {
    if p == 2 {} else if p == 4 {} else if p == 8 {} else {}
  }

  /** Shifting a byte in keeps every unread bit, though the `u16` overflows. */
  lemma ByteIn(buffer: nat, unread: seq<Bit>, byte: Byte)
    requires |unread| < 5 && Holds(buffer, unread)
    ensures Holds((buffer * 256 + byte) % U16, unread + ByteBits(byte))
  {
    SmallPowers();
    ByteBitsValue(byte);
    ValueAppend(unread, ByteBits(byte));
    PowAdd(|unread|, 8);
    PowAdd(|unread| + 8, 8 - |unread|);
    ShiftIn(buffer, Pow2(|unread|), 256, Pow2(8 - |unread|), byte);
  }

  lemma LetterIn(buffer: nat, unread: seq<Bit>, value: nat)
    requires |unread| < 8 && value < 32 && Holds(buffer, unread)
    ensures Holds((buffer * 32 + value) % U16, unread + FiveBits(value))
  {
    SmallPowers();
    FiveBitsValue(value);
    ValueAppend(unread, FiveBits(value));
    PowAdd(|unread|, 5);
    PowAdd(|unread| + 5, 11 - |unread|);
    ShiftIn(buffer, Pow2(|unread|), 32, Pow2(11 - |unread|), value);
  }

  /** Taking the oldest five unread bits as a letter. */
  lemma LetterOut(buffer: nat, unread: seq<Bit>)
    requires |unread| >= 5 && Holds(buffer, unread)
    ensures FiveBits(buffer / Pow2(|unread| - 5) % 32) == unread[..5]
    ensures Holds(buffer, unread[5..])
  {
    var high, low := unread[..5], unread[5..];
    assert unread == high + low;
    SmallPowers();
    ValueAppend(high, low);
    ValueBound(low);
    ValueBound(high);
    PowAdd(5, |low|);
    ShiftOut(buffer, Pow2(|low|), 32, Value(high), Value(low));
    FiveBitsValue(Value(high));
    ValueInjective(FiveBits(Value(high)), high);
  }

  /** Taking the oldest eight unread bits as a byte. */
  lemma ByteOut(buffer: nat, unread: seq<Bit>)
    requires |unread| >= 8 && Holds(buffer, unread)
    ensures ByteBits(buffer / Pow2(|unread| - 8) % 256) == unread[..8]
    ensures Holds(buffer, unread[8..])
  {
    var high, low := unread[..8], unread[8..];
    assert unread == high + low;
    SmallPowers();
    ValueAppend(high, low);
    ValueBound(low);
    ValueBound(high);
    PowAdd(8, |low|);
    ShiftOut(buffer, Pow2(|low|), 256, Value(high), Value(low));
    ByteBitsValue(Value(high));
    ValueInjective(ByteBits(Value(high)), high);
  }

  lemma {:induction false} ValueOfZeros(n: nat)
    ensures Value(Zeros(n)) == 0
  {
    if n > 0 {
      ValueOfZeros(n - 1);
      assert Zeros(n)[..n - 1] == Zeros(n - 1);
    }
  }

  /** The last, short letter: the mask drops what is above the unread bits, and
      the shift leaves the zero pad. */
  lemma LastLetter(buffer: nat, unread: seq<Bit>)
    requires 0 < |unread| < 5 && Holds(buffer, unread)
    ensures FiveBits(buffer * Pow2(5 - |unread|) % U16 % 32) == unread + Zeros(5 - |unread|)
  {
    ShiftPad(buffer, |unread|);
    PaddedBits(unread, Value(unread) * Pow2(5 - |unread|));
  }

  lemma PaddedBits(unread: seq<Bit>, v: nat)
    requires |unread| < 5 && v == Value(unread) * Pow2(5 - |unread|)
    ensures v < Pow2(5) && FiveBits(v) == unread + Zeros(5 - |unread|)
  {
    var padded := unread + Zeros(5 - |unread|);
    ValueOfZeros(5 - |unread|);
    ValueAppend(unread, Zeros(5 - |unread|));
    ValueBound(padded);
    assert Pow2(5) == 32;
    FiveBitsValue(v);
    ValueInjective(FiveBits(v), padded);
  }

  lemma ShiftPad(buffer: nat, bits: nat)
    requires 0 < bits < 5
    ensures buffer * Pow2(5 - bits) % U16 % 32 == buffer % Pow2(bits) * Pow2(5 - bits)
    ensures Pow2(5) == 32
  {
    SmallPowers();
    Padded(buffer, Pow2(bits), Pow2(5 - bits), buffer % Pow2(bits));
  }

  lemma LeftoverIsZero(buffer: nat, unread: seq<Bit>)
    requires Holds(buffer, unread)
    ensures unread == Zeros(|unread|) <==> buffer % Pow2(|unread|) == 0
  {
    ValueOfZeros(|unread|);
    if Value(unread) == 0 { ValueInjective(unread, Zeros(|unread|)); }
  }

  // ----- letters and bits are two views of one thing

  lemma {:induction false} LettersOfBits(bits: seq<Bit>)
    requires |bits| % 5 == 0
    ensures LetterBits(Letters(bits)) == bits
    decreases |bits|
  {
    if bits != [] {
      var front, back := bits[..|bits| - 5], bits[|bits| - 5..];
      LettersOfBits(front);
      FiveIsValue(back);
      FiveBitsValue(FiveValue(back));
      ValueInjective(FiveBits(FiveValue(back)), back);
      assert Letters(bits)[..|Letters(bits)| - 1] == Letters(front);
      assert bits == front + back;
    }
  }

  lemma {:induction false} BitsOfLetters(text: string)
    requires AllLetters(text)
    ensures Letters(LetterBits(text)) == text
  {
    if text != "" {
      var n := |text| - 1;
      assert AllLetters(text[..n]);
      LetterBack(text, n);
      hide FiveBits, Value, FiveValue, Letter, ValueOf, AllLetters;
      BitsOfLetters(text[..n]);
      var bits := LetterBits(text);
      assert bits[..|bits| - 5] == LetterBits(text[..n]);
      assert bits[|bits| - 5..] == FiveBits(ValueOf(text[n]));
      assert text == text[..n] + [text[n]];
    }
  }

  lemma LetterBack(text: string, n: nat)
    requires AllLetters(text) && n < |text|
    ensures Letter(FiveValue(FiveBits(ValueOf(text[n])))) == text[n]
  {
    FiveBitsValue(ValueOf(text[n]));
    FiveIsValue(FiveBits(ValueOf(text[n])));
    hide FiveBits, Value, FiveValue;
  }

  lemma {:induction false} BitsOfInjective(a: seq<Byte>, b: seq<Byte>)
    requires BitsOf(a) == BitsOf(b)
    ensures a == b
  {
    if a != [] {
      var n := |a| - 1;
      assert BitsOf(a)[8 * n..] == ByteBits(a[n]) && BitsOf(b)[8 * n..] == ByteBits(b[n]);
      assert BitsOf(a)[..8 * n] == BitsOf(a[..n]) && BitsOf(b)[..8 * n] == BitsOf(b[..n]);
      ByteBitsValue(a[n]);
      ByteBitsValue(b[n]);
      BitsOfInjective(a[..n], b[..n]);
      assert a == a[..n] + [a[n]] && b == b[..n] + [b[n]];
    }
  }

  /** A letter added to a run of them adds its five bits. */
  lemma AddLetter(text: string, v: nat)
    requires AllLetters(text) && v < 32
    ensures AllLetters(text + [Letter(v)]) && LetterBits(text + [Letter(v)]) == LetterBits(text) + FiveBits(v)
  {
    assert (text + [Letter(v)])[..|text|] == text;
  }

  lemma AddByte(bytes: seq<Byte>, byte: Byte)
    ensures BitsOf(bytes + [byte]) == BitsOf(bytes) + ByteBits(byte)
  {
    assert (bytes + [byte])[..|bytes|] == bytes;
  }

  // ----- the encoder

  method Encode(bytes: seq<Byte>) returns (out: string)
    ensures out == EncodingOf(bytes)
  {
    out := "";
    assert Holds(0, []) && LetterBits("") == [] && BitsOf(bytes[..0]) == [];
    hide Holds, LetterBits, BitsOf, ByteBits, EncodingOf;
    var buffer: nat, bits: nat := 0, 0;
    ghost var unread: seq<Bit> := [];
    var i := 0;
    while i < |bytes|
      invariant 0 <= i <= |bytes| && bits < 5 && bits == |unread|
      invariant Holds(buffer, unread) && AllLetters(out)
      invariant LetterBits(out) + unread == BitsOf(bytes[..i])
    {
      ByteIn(buffer, unread, bytes[i]);
      buffer, bits := (buffer * 256 + bytes[i]) % U16, bits + 8;
      assert bytes[..i + 1] == bytes[..i] + [bytes[i]];
      AddByte(bytes[..i], bytes[i]);
      Assoc(LetterBits(out), unread, ByteBits(bytes[i]));
      unread := unread + ByteBits(bytes[i]);
      out, bits := MoveLetters(out, buffer, bits, unread);
      unread := unread[|unread| - bits..];
      i := i + 1;
    }
    assert bytes[..i] == bytes;
    out := Close(bytes, out, buffer, bits, unread);
  }

  /** Letters, for as long as five bits are left. */
  method MoveLetters(before: string, buffer: nat, waiting: nat, ghost held: seq<Bit>)
    returns (out: string, bits: nat)
    requires waiting == |held| && Holds(buffer, held) && AllLetters(before)
    ensures bits < 5 && bits <= waiting && Holds(buffer, held[waiting - bits..]) && AllLetters(out)
    ensures LetterBits(out) + held[waiting - bits..] == LetterBits(before) + held
  {
    hide Holds, LetterBits;
    out, bits := before, waiting;
    while bits >= 5
      invariant bits <= waiting && Holds(buffer, held[waiting - bits..]) && AllLetters(out)
      invariant LetterBits(out) + held[waiting - bits..] == LetterBits(before) + held
    {
      ghost var unread := held[waiting - bits..];
      bits := bits - 5;
      assert unread[5..] == held[waiting - bits..];
      var letter := buffer / Pow2(bits) % 32;
      MoveLetter(out, buffer, unread, letter);
      out := out + [Letter(letter)];
    }
  }

  /** The last letter, of the bits too few for one of their own. */
  method Close(ghost bytes: seq<Byte>, before: string, buffer: nat, bits: nat, ghost unread: seq<Bit>)
      returns (out: string)
    requires bits < 5 && bits == |unread| && Holds(buffer, unread) && AllLetters(before)
    requires LetterBits(before) + unread == BitsOf(bytes)
    ensures out == EncodingOf(bytes)
  {
    out := before;
    if bits > 0 {
      LastLetter(buffer, unread);
      hide Holds, LetterBits, BitsOf, EncodingOf, Pow2;
      var letter := buffer * Pow2(5 - bits) % U16 % 32;
      AddLetter(out, letter);
      Assoc(LetterBits(out), unread, Zeros(5 - bits));
      out := out + [Letter(letter)];
      IsTheEncoding(out, bytes, 5 - bits);
    } else {
      assert LetterBits(out) == BitsOf(bytes) + Zeros(0);
      IsTheEncoding(out, bytes, 0);
    }
  }

  lemma MoveLetter(out: string, buffer: nat, unread: seq<Bit>, letter: nat)
    requires AllLetters(out) && |unread| >= 5 && Holds(buffer, unread)
    requires letter == buffer / Pow2(|unread| - 5) % 32
    ensures AllLetters(out + [Letter(letter)]) && Holds(buffer, unread[5..])
    ensures LetterBits(out + [Letter(letter)]) + unread[5..] == LetterBits(out) + unread
  {
    LetterOut(buffer, unread);
    AddLetter(out, letter);
    Assoc(LetterBits(out), unread[..5], unread[5..]);
    assert unread == unread[..5] + unread[5..];
  }

  lemma IsTheEncoding(out: string, bytes: seq<Byte>, pad: nat)
    requires AllLetters(out) && pad < 5 && LetterBits(out) == BitsOf(bytes) + Zeros(pad)
    ensures out == EncodingOf(bytes)
  {
    SamePad(|BitsOf(bytes)|, pad, |out|);
    BitsOfLetters(out);
  }

  lemma MoveByte(out: seq<Byte>, buffer: nat, unread: seq<Bit>, byte: Byte)
    requires |unread| >= 8 && Holds(buffer, unread)
    requires byte == buffer / Pow2(|unread| - 8) % 256
    ensures Holds(buffer, unread[8..])
    ensures BitsOf(out + [byte]) + unread[8..] == BitsOf(out) + unread
  {
    ByteOut(buffer, unread);
    AddByte(out, byte);
    Assoc(BitsOf(out), unread[..8], unread[8..]);
    assert unread == unread[..8] + unread[8..];
  }

  lemma Assoc<T>(a: seq<T>, b: seq<T>, c: seq<T>)
    ensures (a + b) + c == a + (b + c)
  {}

  // ----- the decoder

  /** Which byte strings a run of letters encodes: its bits, read as whole bytes
      and a remainder, pin the answer down. */
  lemma CanonicalRemainder(tidy: string, out: seq<Byte>, rest: seq<Bit>, b: seq<Byte>)
    requires AllLetters(tidy)
    requires LetterBits(tidy) == BitsOf(out) + rest && |rest| < 8
    ensures tidy == EncodingOf(b) <==> (b == out && |rest| < 5 && rest == Zeros(|rest|))
  {
    if tidy == EncodingOf(b) {
      var bits := BitsOf(b);
      var pad := Zeros(PadLength(|bits|));
      LettersOfBits(bits + pad);
      assert |out| == |b|;
      SplitAgrees(BitsOf(out), rest, bits, pad);
      BitsOfInjective(out, b);
    }
    if b == out && |rest| < 5 && rest == Zeros(|rest|) {
      SamePad(|BitsOf(b)|, |rest|, |tidy|);
      BitsOfLetters(tidy);
    }
  }

  lemma SamePad(n: nat, k: nat, letters: nat)
    requires k < 5 && n + k == 5 * letters
    ensures PadLength(n) == k
  {}

  lemma SplitAgrees(a: seq<Bit>, x: seq<Bit>, b: seq<Bit>, y: seq<Bit>)
    requires a + x == b + y && |a| == |b|
    ensures a == b && x == y
  {
    assert a == (a + x)[..|a|] && x == (a + x)[|a|..];
    assert b == (b + y)[..|b|] && y == (b + y)[|b|..];
  }

  lemma {:induction false} TidyPrefix(text: string, i: nat)
    requires i <= |text|
    ensures Tidy(text[..i]) <= Tidy(text)
    decreases |text| - i
  {
    if i < |text| {
      assert text[..i + 1][..i] == text[..i];
      TidyPrefix(text, i + 1);
    } else {
      assert text[..i] == text;
    }
  }

  lemma TidyStep(text: string, i: nat)
    requires i < |text|
    ensures Tidy(text[..i + 1]) == if IsSeparator(text[i]) then Tidy(text[..i])
      else Tidy(text[..i]) + [ToUpper(text[i])]
  {
    assert text[..i + 1][..i] == text[..i];
  }

  lemma StrayCharacter(text: string, i: nat)
    requires i < |text| && !IsSeparator(text[i]) && !IsLetter(ToUpper(text[i]))
    ensures forall b: seq<Byte> :: Tidy(text) != EncodingOf(b)
  {
    TidyPrefix(text, i + 1);
    assert text[..i + 1][..i] == text[..i];
    assert Tidy(text)[|Tidy(text[..i])|] == ToUpper(text[i]);
  }

  /** The decoder's loop invariant: the letters of `text[..i]` are the bytes put
      out so far and the unread bits. */
  ghost predicate Decoded(text: string, i: nat, out: seq<Byte>, buffer: nat, unread: seq<Bit>) {
    i <= |text| && AllLetters(Tidy(text[..i])) && Holds(buffer, unread)
    && LetterBits(Tidy(text[..i])) == BitsOf(out) + unread
  }

  lemma SkipSeparator(text: string, i: nat, out: seq<Byte>, buffer: nat, unread: seq<Bit>)
    requires Decoded(text, i, out, buffer, unread) && i < |text| && IsSeparator(text[i])
    ensures Decoded(text, i + 1, out, buffer, unread)
  {
    TidyStep(text, i);
  }

  lemma TakeLetter(text: string, i: nat, out: seq<Byte>, buffer: nat, unread: seq<Bit>, value: nat)
    requires Decoded(text, i, out, buffer, unread) && i < |text| && |unread| < 8
    requires !IsSeparator(text[i]) && value < 32 && ToUpper(text[i]) == Letter(value)
    ensures Decoded(text, i + 1, out, (buffer * 32 + value) % U16, unread + FiveBits(value))
  {
    TidyStep(text, i);
    LetterIn(buffer, unread, value);
    AddLetter(Tidy(text[..i]), value);
    Assoc(BitsOf(out), unread, FiveBits(value));
  }

  lemma PutByte(text: string, i: nat, out: seq<Byte>, buffer: nat, unread: seq<Bit>, byte: Byte)
    requires Decoded(text, i, out, buffer, unread) && |unread| >= 8
    requires byte == buffer / Pow2(|unread| - 8) % 256
    ensures Decoded(text, i, out + [byte], buffer, unread[8..])
  {
    MoveByte(out, buffer, unread, byte);
  }

  lemma Verdict(text: string, out: seq<Byte>, buffer: nat, unread: seq<Bit>)
    requires Decoded(text, |text|, out, buffer, unread) && |unread| < 8
    ensures forall b :: Tidy(text) == EncodingOf(b) <==> (b == out && |unread| < 5 && buffer % Pow2(|unread|) == 0)
  {
    assert text[..|text|] == text;
    LeftoverIsZero(buffer, unread);
    forall b
      ensures Tidy(text) == EncodingOf(b) <==> (b == out && |unread| < 5 && unread == Zeros(|unread|))
    {
      CanonicalRemainder(Tidy(text), out, unread, b);
    }
  }

  /** Decoding inverts encoding, and accepts nothing else: a code is accepted,
      as `b`, exactly when tidied up it is `b`'s one encoding. */
  method Decode(text: string) returns (r: Option<seq<Byte>>)
    ensures forall b: seq<Byte> :: r == Some(b) <==> Tidy(text) == EncodingOf(b)
  {
    var out: seq<Byte> := [];
    var buffer: nat, bits: nat := 0, 0;
    ghost var unread: seq<Bit> := [];
    assert text[..0] == "" && Decoded(text, 0, out, buffer, unread);
    hide Decoded;
    for i := 0 to |text|
      invariant bits < 8 && bits == |unread| && Decoded(text, i, out, buffer, unread)
    {
      if IsSeparator(text[i]) {
        SkipSeparator(text, i, out, buffer, unread);
      } else {
        var upper := ToUpper(text[i]);
        if !IsLetter(upper) {
          StrayCharacter(text, i);
          return None;
        }
        var value := ValueOf(upper);
        TakeLetter(text, i, out, buffer, unread, value);
        buffer, bits, unread := (buffer * 32 + value) % U16, bits + 5, unread + FiveBits(value);
        if bits >= 8 {
          bits := bits - 8;
          var byte: Byte := buffer / Pow2(bits) % 256;
          PutByte(text, i + 1, out, buffer, unread, byte);
          out, unread := out + [byte], unread[8..];
        }
      }
    }
    Verdict(text, out, buffer, unread);
    if bits >= 5 || buffer % Pow2(bits) != 0 {
      return None;
    }
    return Some(out);
  }

  // ----- what follows for anyone holding a code

  /** No two byte strings share a code. */
  lemma EncodingIsInjective(a: seq<Byte>, b: seq<Byte>)
    requires EncodingOf(a) == EncodingOf(b)
    ensures a == b
  {
    var pad := Zeros(PadLength(8 * |a|));
    LettersOfBits(BitsOf(a) + pad);
    CanonicalRemainder(EncodingOf(a), a, pad, b);
  }

  /** `text` is `code` with dashes and spaces put in and letters in either case. */
  predicate Retyped(text: string, code: string) {
    if text == "" then code == ""
    else
      var last, front := text[|text| - 1], text[..|text| - 1];
      if IsSeparator(last) then Retyped(front, code)
      else code != "" && ToUpper(last) == code[|code| - 1] && Retyped(front, code[..|code| - 1])
  }

  /** Typing a code back in any case, with separators anywhere, is still that
      code: with `Decode`, the round trip as people make it. */
  lemma {:induction false} RetypedCodeIsTheCode(text: string, code: string)
    ensures Retyped(text, code) <==> Tidy(text) == code
    decreases |text|
  {
    if text != "" {
      var n := |text| - 1;
      if IsSeparator(text[n]) {
        RetypedCodeIsTheCode(text[..n], code);
      } else if code != "" {
        var k := |code| - 1;
        RetypedCodeIsTheCode(text[..n], code[..k]);
        assert code == code[..k] + [code[k]];
        assert Tidy(text) == code ==> Tidy(text)[..k] == code[..k];
      }
    }
  }

  /** A code cut short is never accepted as the secret it was cut from: at most
      it is the code of a shorter beginning of it. */
  lemma ShortenedCodeIsNotTheSecret(secret: seq<Byte>, cut: nat, b: seq<Byte>)
    requires cut < |EncodingOf(secret)| && EncodingOf(secret)[..cut] == EncodingOf(b)
    ensures |b| < |secret| && b == secret[..|b|]
  {
    var padS, padB := Zeros(PadLength(|BitsOf(secret)|)), Zeros(PadLength(|BitsOf(b)|));
    assert EncodingOf(secret) == Letters(BitsOf(secret) + padS) && EncodingOf(b) == Letters(BitsOf(b) + padB);
    hide Letters, LetterBits, BitsOf, Zeros, PadLength, EncodingOf;
    LettersOfBits(BitsOf(secret) + padS);
    LettersOfBits(BitsOf(b) + padB);
    LetterBitsPrefix(EncodingOf(secret), cut);
    PrefixBits(BitsOf(secret), padS, BitsOf(b), padB, 5 * cut);
    BitsOfPrefix(secret, |b|);
    BitsOfInjective(b, secret[..|b|]);
  }

  lemma PrefixBits(all: seq<Bit>, pad: seq<Bit>, part: seq<Bit>, partPad: seq<Bit>, n: nat)
    requires n <= |all + pad| - 5 && |pad| < 5 && (all + pad)[..n] == part + partPad
    ensures |part| < |all| && all[..|part|] == part
  {
    assert part == (part + partPad)[..|part|];
    assert all[..|part|] == (all + pad)[..n][..|part|];
  }

  lemma {:induction false} LetterBitsPrefix(text: string, cut: nat)
    requires cut <= |text| && AllLetters(text)
    ensures LetterBits(text[..cut]) == LetterBits(text)[..5 * cut]
    decreases |text|
  {
    if cut < |text| {
      LetterBitsPrefix(text[..|text| - 1], cut);
      assert text[..|text| - 1][..cut] == text[..cut];
    } else {
      assert text[..cut] == text;
    }
  }

  lemma {:induction false} BitsOfPrefix(bytes: seq<Byte>, n: nat)
    requires n <= |bytes|
    ensures BitsOf(bytes[..n]) == BitsOf(bytes)[..8 * n]
    decreases |bytes|
  {
    if n < |bytes| {
      BitsOfPrefix(bytes[..|bytes| - 1], n);
      assert bytes[..|bytes| - 1][..n] == bytes[..n];
    } else {
      assert bytes[..n] == bytes;
    }
  }
}
