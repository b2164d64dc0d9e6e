/** Hexadecimal text of byte arrays (`packages/crypto/src/utils.ts`; RFC 4648 section 8). */
module Hex {
  import opened JavaScriptText
  import opened Optional

  type Byte = x: int | 0 <= x < 256

  // ---------------------------------------------------------------- digits

  function Code(c: char): int { c as int }

  predicate IsHex(c: CodeUnit) {
    Code('0') <= c <= Code('9') || Code('a') <= c <= Code('f') || Code('A') <= c <= Code('F')
  }

  function Digit(n: int): CodeUnit
    requires 0 <= n < 16
  {
    if n < 10 then n + Code('0') else n - 10 + Code('a')
  }

  function Value(c: CodeUnit): (n: int)
    requires IsHex(c)
    ensures 0 <= n < 16
  {
    if c <= Code('9') then c - Code('0') else if c <= Code('F') then c - Code('A') + 10 else c - Code('a') + 10
  }

  function Lower(c: CodeUnit): CodeUnit { if Code('A') <= c <= Code('F') then c + 32 else c }

  function LowerCased(s: Text): (r: Text)
    ensures |r| == |s|
  {
    seq(|s|, i requires 0 <= i < |s| => Lower(s[i]))
  }

  /** The digits are those of section 8 of RFC 4648: sixteen characters, encoded in lower case and read in either. */
  lemma DigitsAreTheTable(n: int, c: CodeUnit)
    requires 0 <= n < 16
    ensures var lower, upper := Code("0123456789abcdef"[n]), Code("0123456789ABCDEF"[n]);
            && Digit(n) == lower
            && (c == lower || c == upper <==> IsHex(c) && Value(c) == n)
  {
  }

  lemma ValueOfDigit(n: int)
    requires 0 <= n < 16
    ensures IsHex(Digit(n)) && Value(Digit(n)) == n
  {
  }

  lemma DigitOfValue(c: CodeUnit)
    requires IsHex(c)
    ensures Digit(Value(c)) == Lower(c)
  {
  }

  // ---------------------------------------------------------------- encoding

  /** Two lower-case digits a byte. */
  function ToHex(bytes: seq<Byte>): (s: Text)
    ensures |s| == 2 * |bytes|
  {
    if bytes == [] then [] else [Digit(bytes[0] / 16), Digit(bytes[0] % 16)] + ToHex(bytes[1..])
  }

  // ---------------------------------------------------------------- JavaScript's parseInt, radix 16

  function Trimmed(s: Text): Text {
    if s != [] && IsSpaceCode(s[0]) then Trimmed(s[1..]) else s
  }

  function Digits(s: Text): (r: Text)
    ensures forall c | c in r :: IsHex(c)
  {
    if s != [] && IsHex(s[0]) then [s[0]] + Digits(s[1..]) else []
  }

  function Number(digits: Text): int
    requires forall c | c in digits :: IsHex(c)
  {
    if digits == [] then 0 else 16 * Number(digits[..|digits| - 1]) + Value(digits[|digits| - 1])
  }

  /** None for NaN. */
  function ParseInt16(s: Text): Option<int> {
    var t := Trimmed(s);
    var negative := t != [] && t[0] == Code('-');
    var u := if t != [] && (t[0] == Code('-') || t[0] == Code('+')) then t[1..] else t;
    var v := if |u| >= 2 && u[0] == Code('0') && (u[1] == Code('x') || u[1] == Code('X')) then u[2..] else u;
    var d := Digits(v);
    if d == [] then None else Some(if negative then -Number(d) else Number(d))
  }

  /** Storing a number in a byte array keeps it modulo 256. */
  function ToUint8(n: int): Byte { n % 256 }

  // ---------------------------------------------------------------- decoding

  datatype Decoded = Bytes(bytes: seq<Byte>) | OddLength | InvalidAt(position: nat)

  /** The number of a pair of characters, by cases. `PairIsParsed` proves that the parser gives the same. */
  function PairValue(c: CodeUnit, d: CodeUnit): Option<int> {
    if IsHex(c) && !(c == Code('0') && (d == Code('x') || d == Code('X'))) then Some(if IsHex(d) then 16 * Value(c) + Value(d) else Value(c))
    else if (IsSpaceCode(c) || c == Code('+')) && IsHex(d) then Some(Value(d))
    else if c == Code('-') && IsHex(d) then Some(-Value(d))
    else None
  }

  /** The bytes of the pairs from pair `k` on, or the position of the first that is no number. */
  function DecodeFrom(s: Text, k: nat): Decoded
    decreases |s| - 2 * k
  {
    if 2 * k + 1 >= |s| then Bytes([])
    else
      match PairValue(s[2 * k], s[2 * k + 1])
      case None => InvalidAt(2 * k)
      case Some(n) => Prepended([ToUint8(n)], DecodeFrom(s, k + 1))
  }

  /** Decoded bytes with others in front of them; a failure stays what it is. */
  function Prepended(bytes: seq<Byte>, decoded: Decoded): Decoded {
    if decoded.Bytes? then Bytes(bytes + decoded.bytes) else decoded
  }

  lemma PrependedTwice(a: seq<Byte>, b: seq<Byte>, decoded: Decoded)
    ensures Prepended(a, Prepended(b, decoded)) == Prepended(a + b, decoded)
  {
    if decoded.Bytes? { assert a + (b + decoded.bytes) == a + b + decoded.bytes; }
  }

  function FromHex(s: Text): Decoded {
    if |s| % 2 != 0 then OddLength else DecodeFrom(s, 0)
  }

  predicate AllHex(s: Text) { forall c | c in s :: IsHex(c) }

  /** Two code units that the decoder takes for a byte: two digits, a digit before anything that does
      not complete a "0x" prefix, or a digit after white space or a sign. */
  predicate Accepted(c: CodeUnit, d: CodeUnit) {
    || (IsHex(c) && !(c == Code('0') && (d == Code('x') || d == Code('X'))))
    || ((IsSpaceCode(c) || c == Code('+') || c == Code('-')) && IsHex(d))
  }

  /** The case distinction is what parsing the two characters gives. */
  lemma PairIsParsed(c: CodeUnit, d: CodeUnit)
    ensures ParseInt16([c, d]) == PairValue(c, d)
  {
    TwoUnitTexts(c, d);
    NumberOfOne(c);
    NumberOfOne(d);
    if IsHex(c) && IsHex(d) { NumberOfTwo(c, d); }
  }

  lemma TwoUnitTexts(c: CodeUnit, d: CodeUnit)
    ensures [c, d][1..] == [d] && [d][1..] == [] && [c, d][2..] == []
    ensures Trimmed([c, d]) == if !IsSpaceCode(c) then [c, d] else if IsSpaceCode(d) then [] else [d]
    ensures Digits([d]) == if IsHex(d) then [d] else []
    ensures Digits([c, d]) == if !IsHex(c) then [] else if IsHex(d) then [c, d] else [c]
  {
    assert [c, d][1..] == [d] && [d][1..] == [];
    assert Trimmed([d]) == if IsSpaceCode(d) then [] else [d];
  }

  lemma NumberOfOne(c: CodeUnit)
    ensures IsHex(c) ==> Number([c]) == Value(c)
  {
    assert [c][..0] == [];
  }

  lemma NumberOfTwo(c: CodeUnit, d: CodeUnit)
    requires IsHex(c) && IsHex(d)
    ensures Number([c, d]) == 16 * Value(c) + Value(d)
  {
    assert [c, d][..1] == [c];
    NumberOfOne(c);
  }

  /** Position `p` starts the first pair from pair `k` on that is not accepted. */
  ghost predicate FirstBad(s: Text, k: nat, p: nat) {
    && p % 2 == 0 && 2 * k <= p && p + 1 < |s| && !Accepted(s[p], s[p + 1])
    && forall j :: k <= j && 2 * j < p ==> Accepted(s[2 * j], s[2 * j + 1])
  }

  lemma {:induction false} DecodesFromIff(s: Text, k: nat)
    ensures DecodeFrom(s, k).Bytes? <==> forall j :: k <= j && 2 * j + 1 < |s| ==> Accepted(s[2 * j], s[2 * j + 1])
    ensures !DecodeFrom(s, k).Bytes? ==> DecodeFrom(s, k).InvalidAt? && FirstBad(s, k, DecodeFrom(s, k).position)
    decreases |s| - 2 * k
  {
    if 2 * k + 1 < |s| { DecodesFromIff(s, k + 1); }
  }

  /** Exactly which texts decode: an even number of code units whose pairs are all accepted.  So some
      texts with characters that are not hexadecimal digits decode too. */
  lemma DecodesIff(s: Text)
    ensures FromHex(s).Bytes? <==> |s| % 2 == 0 && forall k: nat :: 2 * k + 1 < |s| ==> Accepted(s[2 * k], s[2 * k + 1])
    ensures FromHex(s).OddLength? <==> |s| % 2 != 0
    ensures FromHex(s).InvalidAt? ==> FirstBad(s, 0, FromHex(s).position)
  {
    DecodesFromIff(s, 0);
  }

  /** The documented rejection of invalid characters does not hold for every text. */
  lemma AcceptsSomeInvalidText()
    ensures FromHex(Utf16("1g")) == Bytes([1]) && FromHex(Utf16("-1")) == Bytes([255])
  {
    TwoUnits('1', 'g');
    TwoUnits('-', '1');
    OneNumber(Code('1'), Code('g'));
    OneNumber(Code('-'), Code('1'));
  }

  lemma TwoUnits(c: char, d: char)
    requires c < '\U{80}' && d < '\U{80}'
    ensures Utf16([c, d]) == [Code(c), Code(d)]
  {
    assert [c, d][1..] == [d] && [d][1..] == [];
    assert Utf16([d]) == [Code(d)];
  }

  lemma OneNumber(c: CodeUnit, d: CodeUnit)
    requires PairValue(c, d).Some?
    ensures FromHex([c, d]) == Bytes([ToUint8(PairValue(c, d).value)])
  {
    assert DecodeFrom([c, d], 1) == Bytes([]);
  }

  // ---------------------------------------------------------------- round trips

  lemma {:induction false} ToHexAt(bytes: seq<Byte>, k: nat)
    requires k < |bytes|
    ensures ToHex(bytes)[2 * k] == Digit(bytes[k] / 16) && ToHex(bytes)[2 * k + 1] == Digit(bytes[k] % 16)
    decreases k
  {
    if k > 0 { ToHexAt(bytes[1..], k - 1); }
  }

  lemma DigitsOfByte(b: Byte)
    ensures var n := PairValue(Digit(b / 16), Digit(b % 16)); n == Some(b as int) && ToUint8(b) == b
  {
    ValueOfDigit(b / 16);
    ValueOfDigit(b % 16);
  }

  lemma {:induction false} DecodeEncoded(bytes: seq<Byte>, k: nat)
    requires k <= |bytes|
    ensures DecodeFrom(ToHex(bytes), k) == Bytes(bytes[k..])
    decreases |bytes| - k
  {
    if k < |bytes| {
      var s := ToHex(bytes);
      ToHexAt(bytes, k);
      DigitsOfByte(bytes[k]);
      DecodeEncoded(bytes, k + 1);
      assert DecodeFrom(s, k) == Prepended([bytes[k]], DecodeFrom(s, k + 1));
      assert bytes[k..] == [bytes[k]] + bytes[k + 1..];
    }
  }

  lemma EvenDecodes(s: Text, n: nat)
    requires |s| == 2 * n
    ensures FromHex(s) == DecodeFrom(s, 0)
  {
  }

  /** Decoding undoes encoding for every byte string. */
  lemma {:induction false} FromHexUndoesToHex(bytes: seq<Byte>)
    ensures FromHex(ToHex(bytes)) == Bytes(bytes)
  {
    EvenDecodes(ToHex(bytes), |bytes|);
    DecodeEncoded(bytes, 0);
    assert bytes[0..] == bytes;
  }

  lemma PairByte(v: int, w: int)
    requires 0 <= v < 16 && 0 <= w < 16
    ensures ToUint8(16 * v + w) / 16 == v && ToUint8(16 * v + w) % 16 == w
  {
  }

  lemma {:induction false} EncodeDecoded(s: Text, k: nat)
    requires |s| % 2 == 0 && 2 * k <= |s| && AllHex(s)
    ensures DecodeFrom(s, k).Bytes? && ToHex(DecodeFrom(s, k).bytes) == LowerCased(s)[2 * k..]
    decreases |s| - 2 * k
  {
    if 2 * k < |s| {
      var c, d := s[2 * k], s[2 * k + 1];
      assert c in s && d in s;
      var rest := DecodeFrom(s, k + 1);
      EncodeDecoded(s, k + 1);
      assert DecodeFrom(s, k) == Prepended([ToUint8(16 * Value(c) + Value(d))], rest);
      EncodeOne(c, d, rest.bytes);
      LowerSplit(s, k);
    }
  }

  lemma LowerSplit(s: Text, k: nat)
    requires 2 * k + 1 < |s|
    ensures LowerCased(s)[2 * k..] == [Lower(s[2 * k]), Lower(s[2 * k + 1])] + LowerCased(s)[2 * k + 2..]
  {
  }

  lemma EncodeOne(c: CodeUnit, d: CodeUnit, rest: seq<Byte>)
    requires IsHex(c) && IsHex(d)
    ensures ToHex([ToUint8(16 * Value(c) + Value(d))] + rest) == [Lower(c), Lower(d)] + ToHex(rest)
  {
    PairByte(Value(c), Value(d));
    DigitOfValue(c);
    DigitOfValue(d);
    var b := [ToUint8(16 * Value(c) + Value(d))] + rest;
    assert b[1..] == rest;
  }

  /** Valid text decodes, and encoding the bytes gives the text in lower case. */
  lemma ToHexUndoesFromHex(s: Text)
    requires |s| % 2 == 0 && AllHex(s)
    ensures FromHex(s).Bytes? && ToHex(FromHex(s).bytes) == LowerCased(s)
  {
    EncodeDecoded(s, 0);
  }

  // ---------------------------------------------------------------- the loop

  method ParseAt(hex: Text, i: nat) returns (n: Option<int>)
    requires i + 2 <= |hex|
    ensures n == PairValue(hex[i], hex[i + 1])
  {
    n := ParseInt16(hex[i..i + 2]);
    assert hex[i..i + 2] == [hex[i], hex[i + 1]];
    PairIsParsed(hex[i], hex[i + 1]);
  }

  /** The decoding loop: fills a byte array pair by pair, or reports what is wrong. */
  method DecodeHex(hex: Text) returns (bytes: array?<Byte>, error: Option<Decoded>)
    ensures error == None <==> FromHex(hex).Bytes?
    ensures error == None ==> bytes != null && fresh(bytes) && FromHex(hex) == Bytes(bytes[..])
    ensures error.Some? ==> error.value == FromHex(hex)
  {
    if |hex| % 2 != 0 { return null, Some(OddLength); }
    var buffer := new Byte[|hex| / 2](_ => 0);
    var i := 0;
    ghost var k: nat := 0;
    while i < |hex|
      invariant i == 2 * k <= |hex| == 2 * buffer.Length
      invariant FromHex(hex) == Prepended(buffer[..k], DecodeFrom(hex, k))
    {
      var n := ParseAt(hex, i);
      if n == None { return null, Some(InvalidAt(i)); }
      ghost var before := buffer[..k];
      buffer[i / 2] := n.value % 256;
      assert buffer[..k + 1] == before + [ToUint8(n.value)];
      PrependedTwice(before, [ToUint8(n.value)], DecodeFrom(hex, k + 1));
      i, k := i + 2, k + 1;
    }
    assert buffer[..k] == buffer[..];
    return buffer, None;
  }
}
