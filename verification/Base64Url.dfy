/** Base64 and its URL-safe variant (`packages/crypto/src/utils.ts`; RFC 4648 sections 4 and 5). */
module Base64Url {
  import opened Optional

  type Byte = bv8
  type Sextet = bv6

  // ---------------------------------------------------------------- the alphabet of section 4

  function CharOf(x: Sextet): char {
    if x < 26 then (x as int + 65) as char
    else if x < 52 then (x as int + 71) as char
    else if x < 62 then (x as int - 4) as char
    else if x == 62 then '+' else '/'
  }

  predicate InAlphabet(c: char) {
    'A' <= c <= 'Z' || 'a' <= c <= 'z' || '0' <= c <= '9' || c == '+' || c == '/'
  }

  /** The section 5 alphabet: two characters differ. */
  predicate InUrlAlphabet(c: char) {
    'A' <= c <= 'Z' || 'a' <= c <= 'z' || '0' <= c <= '9' || c == '-' || c == '_'
  }

  function IndexOf(c: char): Sextet
    requires InAlphabet(c)
  {
    if 'A' <= c <= 'Z' then (c as int - 65) as Sextet
    else if 'a' <= c <= 'z' then (c as int - 71) as Sextet
    else if '0' <= c <= '9' then (c as int + 4) as Sextet
    else if c == '+' then 62 else 63
  }

  function Chars(xs: seq<Sextet>): (s: string)
    ensures |s| == |xs|
  {
    seq(|xs|, i requires 0 <= i < |xs| => CharOf(xs[i]))
  }

  function Indices(s: string): (xs: seq<Sextet>)
    requires forall c | c in s :: InAlphabet(c)
    ensures |xs| == |s|
  {
    seq(|s|, i requires 0 <= i < |s| => IndexOf(s[i]))
  }

  // ---------------------------------------------------------------- base64

  function Repeat(c: char, n: nat): (s: string)
    ensures |s| == n && forall x | x in s :: x == c
  {
    seq(n, i => c)
  }

  // A group of three bytes holds four sextets, most significant bits first.
  function S0(a: Byte): Sextet { (a >> 2) as Sextet }
  function S1(a: Byte, b: Byte): Sextet { (((a & 3) << 4) | (b >> 4)) as Sextet }
  function S2(b: Byte, c: Byte): Sextet { (((b & 15) << 2) | (c >> 6)) as Sextet }
  function S3(c: Byte): Sextet { (c & 63) as Sextet }

  function B0(p: Sextet, q: Sextet): Byte { ((p as Byte) << 2) | ((q >> 4) as Byte) }
  function B1(q: Sextet, r: Sextet): Byte { ((q as Byte) << 4) | ((r >> 2) as Byte) }
  function B2(r: Sextet, s: Sextet): Byte { ((r as Byte) << 6) | (s as Byte) }

  /** Three bytes and their four sextets are one 24-bit number. */
  lemma GroupIsOneNumber(a: Byte, b: Byte, c: Byte)
    ensures ((a as bv24) << 16) | ((b as bv24) << 8) | (c as bv24)
         == ((S0(a) as bv24) << 18) | ((S1(a, b) as bv24) << 12) | ((S2(b, c) as bv24) << 6) | (S3(c) as bv24)
  {
  }

  lemma BytesOfSextets(a: Byte, b: Byte, c: Byte)
    ensures B0(S0(a), S1(a, b)) == a && B1(S1(a, b), S2(b, c)) == b && B2(S2(b, c), S3(c)) == c
  {
  }

  lemma SextetsOfBytes(p: Sextet, q: Sextet, r: Sextet, s: Sextet)
    ensures S0(B0(p, q)) == p && S1(B0(p, q), B1(q, r)) == q && S2(B1(q, r), B2(r, s)) == r && S3(B2(r, s)) == s
    ensures S1(B0(p, q), 0) == q & 48 && S2(B1(q, r), 0) == r & 60
  {
  }

  /** The sextets of a byte string; the last one is filled up with zero bits. */
  function Sextets(bytes: seq<Byte>): (xs: seq<Sextet>)
    ensures |xs| == (4 * |bytes| + 2) / 3
  {
    if bytes == [] then []
    else if |bytes| == 1 then [S0(bytes[0]), S1(bytes[0], 0)]
    else if |bytes| == 2 then [S0(bytes[0]), S1(bytes[0], bytes[1]), S2(bytes[1], 0)]
    else [S0(bytes[0]), S1(bytes[0], bytes[1]), S2(bytes[1], bytes[2]), S3(bytes[2])] + Sextets(bytes[3..])
  }

  /** The bytes of a string of sextets; bits that do not fill a byte are dropped. */
  function Octets(xs: seq<Sextet>): seq<Byte> {
    if |xs| < 2 then []
    else if |xs| == 2 then [B0(xs[0], xs[1])]
    else if |xs| == 3 then [B0(xs[0], xs[1]), B1(xs[1], xs[2])]
    else [B0(xs[0], xs[1]), B1(xs[1], xs[2]), B2(xs[2], xs[3])] + Octets(xs[4..])
  }

  /** Padding to a multiple of four characters. */
  function Padding(n: nat): string { Repeat('=', PadCount(n)) }

  function PadCount(n: nat): nat { (4 - n % 4) % 4 }

  lemma PadCountFills(n: nat)
    ensures (n + PadCount(n)) % 4 == 0 && (n % 4 != 1 ==> PadCount(n) <= 2)
  {
  }

  function ToBase64(bytes: seq<Byte>): string {
    Chars(Sextets(bytes)) + Padding(|Sextets(bytes)|)
  }

  /** At most two trailing '=' are padding. */
  function Unpadded(s: string): string {
    if |s| >= 2 && s[|s| - 2..] == "==" then s[..|s| - 2]
    else if |s| >= 1 && s[|s| - 1] == '=' then s[..|s| - 1]
    else s
  }

  /** None for text that is not padded base64, on which the runtimes' own decoders differ. */
  function FromBase64(s: string): Option<seq<Byte>> {
    if |s| % 4 != 0 || exists c :: c in Unpadded(s) && !InAlphabet(c) then None
    else Some(Octets(Indices(Unpadded(s))))
  }

  // ---------------------------------------------------------------- the URL-safe variant

  function ReplaceAll(s: string, from: char, with: char): (r: string)
    ensures |r| == |s|
  {
    seq(|s|, i requires 0 <= i < |s| => if s[i] == from then with else s[i])
  }

  function RemoveAll(s: string, c: char): string {
    if s == [] then [] else (if s[0] == c then [] else [s[0]]) + RemoveAll(s[1..], c)
  }

  function ToBase64Url(bytes: seq<Byte>): string {
    RemoveAll(ReplaceAll(ReplaceAll(ToBase64(bytes), '+', '-'), '/', '_'), '=')
  }

  function Repadded(s: string): string {
    var base64 := ReplaceAll(ReplaceAll(s, '-', '+'), '_', '/');
    base64 + Repeat('=', PadCount(|base64|))
  }

  function FromBase64Url(s: string): Option<seq<Byte>> {
    FromBase64(Repadded(s))
  }

  // ---------------------------------------------------------------- sextets

  lemma OctetsCons(p: Sextet, q: Sextet, r: Sextet, s: Sextet, rest: seq<Sextet>)
    ensures Octets([p, q, r, s] + rest) == [B0(p, q), B1(q, r), B2(r, s)] + Octets(rest)
  {
    assert ([p, q, r, s] + rest)[4..] == rest;
  }

  lemma SextetsCons(a: Byte, b: Byte, c: Byte, rest: seq<Byte>)
    ensures Sextets([a, b, c] + rest) == [S0(a), S1(a, b), S2(b, c), S3(c)] + Sextets(rest)
  {
    assert ([a, b, c] + rest)[3..] == rest;
  }

  lemma {:induction false} OctetsOfSextets(bytes: seq<Byte>)
    ensures Octets(Sextets(bytes)) == bytes
    decreases |bytes|
  {
    if |bytes| >= 3 {
      var a, b, c, rest := bytes[0], bytes[1], bytes[2], bytes[3..];
      assert bytes == [a, b, c] + rest;
      OctetsOfSextets(rest);
      SextetsCons(a, b, c, rest);
      OctetsCons(S0(a), S1(a, b), S2(b, c), S3(c), Sextets(rest));
      BytesOfSextets(a, b, c);
    } else if |bytes| == 2 {
      BytesOfSextets(bytes[0], bytes[1], 0);
    } else if |bytes| == 1 {
      BytesOfSextets(bytes[0], 0, 0);
    }
  }

  lemma CharRoundTrip(x: Sextet)
    ensures InAlphabet(CharOf(x)) && IndexOf(CharOf(x)) == x && CharOf(x) != '='
  {
  }

  lemma SextetOfInt(n: int)
    requires 0 <= n < 64
    ensures (n as Sextet) as int == n
  {
  }

  lemma IndexRoundTrip(c: char)
    requires InAlphabet(c)
    ensures CharOf(IndexOf(c)) == c
  {
    var n := if 'A' <= c <= 'Z' then c as int - 65 else if 'a' <= c <= 'z' then c as int - 71
             else if '0' <= c <= '9' then c as int + 4 else if c == '+' then 62 else 63;
    SextetOfInt(n);
    assert IndexOf(c) == n as Sextet;
    assert (n < 26 <==> (n as Sextet) < 26) && (n < 52 <==> (n as Sextet) < 52) && (n < 62 <==> (n as Sextet) < 62);
  }

  lemma IndicesOfChars(xs: seq<Sextet>)
    ensures forall c | c in Chars(xs) :: InAlphabet(c)
    ensures Indices(Chars(xs)) == xs
  {
    forall i | 0 <= i < |xs| ensures InAlphabet(Chars(xs)[i]) && IndexOf(Chars(xs)[i]) == xs[i] { CharRoundTrip(xs[i]); }
  }

  // ---------------------------------------------------------------- characters

  function Url(s: string): (r: string)
    ensures |r| == |s|
  {
    ReplaceAll(ReplaceAll(s, '+', '-'), '/', '_')
  }

  function UnUrl(s: string): (r: string)
    ensures |r| == |s|
  {
    ReplaceAll(ReplaceAll(s, '-', '+'), '_', '/')
  }

  lemma {:induction false} RemovePadding(s: string, n: nat)
    requires '=' !in s
    ensures RemoveAll(s + Repeat('=', n), '=') == s
    decreases |s| + n
  {
    if s != [] {
      assert (s + Repeat('=', n))[1..] == s[1..] + Repeat('=', n);
      RemovePadding(s[1..], n);
      assert s == [s[0]] + s[1..];
    } else if n > 0 {
      assert (s + Repeat('=', n))[1..] == s + Repeat('=', n - 1);
      RemovePadding(s, n - 1);
    }
  }

  lemma UrlLeavesPadding(s: string, n: nat)
    ensures Url(s + Repeat('=', n)) == Url(s) + Repeat('=', n)
  {
  }

  /** The encoded text is the URL form of the sextets' characters: the padding is exactly what goes. */
  lemma EncodedShape(bytes: seq<Byte>)
    ensures ToBase64Url(bytes) == Url(Chars(Sextets(bytes)))
  {
    var xs := Sextets(bytes);
    IndicesOfChars(xs);
    UrlLeavesPadding(Chars(xs), PadCount(|xs|));
    assert '=' !in Url(Chars(xs)) by {
      forall i | 0 <= i < |xs| ensures Url(Chars(xs))[i] != '=' { CharRoundTrip(xs[i]); }
    }
    RemovePadding(Url(Chars(xs)), PadCount(|xs|));
  }

  lemma UnUrlOfUrl(s: string)
    requires forall c | c in s :: InAlphabet(c)
    ensures UnUrl(Url(s)) == s
    ensures forall c | c in Url(s) :: InUrlAlphabet(c)
  {
    forall i | 0 <= i < |s| ensures UnUrl(Url(s))[i] == s[i] && InUrlAlphabet(Url(s)[i]) { assert s[i] in s; }
  }

  lemma UnpaddedPadding(s: string, n: nat)
    requires n <= 2 && '=' !in s
    ensures Unpadded(s + Repeat('=', n)) == s
  {
    var t := s + Repeat('=', n);
    assert n == 2 ==> t[|t| - 2..] == "==";
    assert s != [] ==> s[|s| - 1] in s;
    assert n < 2 && |t| >= 2 ==> t[|t| - 2] == (if n == 1 then s[|s| - 1] else s[|s| - 2]) && t[|t| - 2] in s;
    assert n < 2 && |t| >= 2 ==> t[|t| - 2..][0] == t[|t| - 2];
    assert t[..|s|] == s;
  }

  // ---------------------------------------------------------------- the promises

  /** The output uses only the section 5 alphabet; its length is four thirds of the input's, rounded
      up, so never 1 modulo 4; and re-padding restores exactly the text the padding was stripped from. */
  lemma EncodingIsUrlSafe(bytes: seq<Byte>)
    ensures forall c | c in ToBase64Url(bytes) :: InUrlAlphabet(c)
    ensures |ToBase64Url(bytes)| == (4 * |bytes| + 2) / 3 && |ToBase64Url(bytes)| % 4 != 1
    ensures Repadded(ToBase64Url(bytes)) == ToBase64(bytes)
  {
    var xs := Sextets(bytes);
    EncodedShape(bytes);
    IndicesOfChars(xs);
    UnUrlOfUrl(Chars(xs));
    EncodedLength(|bytes|);
    RepaddingRestores(Chars(xs));
  }

  lemma EncodedLength(n: nat)
    ensures (4 * n + 2) / 3 % 4 != 1
  {
    var k, r := n / 3, n % 3;
    assert n == 3 * k + r;
    assert (4 * n + 2) / 3 == 4 * k + (4 * r + 2) / 3;
  }

  lemma RepaddingRestores(s: string)
    requires UnUrl(Url(s)) == s
    ensures Repadded(Url(s)) == s + Padding(|s|)
  {
  }

  /** Padded text of the alphabet decodes to the bytes of its sextets. */
  lemma DecodePadded(t: string)
    requires (forall c | c in t :: InAlphabet(c)) && |t| % 4 != 1
    ensures FromBase64(t + Padding(|t|)) == Some(Octets(Indices(t)))
  {
    var n := PadCount(|t|);
    PadCountFills(|t|);
    assert '=' !in t;
    UnpaddedPadding(t, n);
  }

  /** Decoding undoes encoding for every byte string. */
  lemma {:induction false} DecodeUndoesEncode(bytes: seq<Byte>)
    ensures FromBase64Url(ToBase64Url(bytes)) == Some(bytes)
  {
    var xs := Sextets(bytes);
    EncodingIsUrlSafe(bytes);
    IndicesOfChars(xs);
    SextetCount(bytes);
    DecodePadded(Chars(xs));
    OctetsOfSextets(bytes);
  }

  lemma SextetCount(bytes: seq<Byte>)
    ensures |Sextets(bytes)| % 4 != 1
  {
  }

  /** The bits of the last sextet that no byte takes are zero. */
  predicate Canonical(xs: seq<Sextet>) {
    && (|xs| % 4 == 2 ==> xs[|xs| - 1] & 15 == 0)
    && (|xs| % 4 == 3 ==> xs[|xs| - 1] & 3 == 0)
  }

  lemma TailBits(x: Sextet)
    ensures x & 48 == x <==> x & 15 == 0
    ensures x & 60 == x <==> x & 3 == 0
  {
  }

  lemma ShortGroups(p: Sextet, q: Sextet, r: Sextet)
    ensures Sextets(Octets([p, q])) == [p, q] <==> Canonical([p, q])
    ensures Sextets(Octets([p, q, r])) == [p, q, r] <==> Canonical([p, q, r])
  {
    SextetsOfBytes(p, q, r, 0);
    TailBits(q);
    TailBits(r);
    assert Sextets(Octets([p, q])) == [p, q & 48];
    assert Sextets(Octets([p, q, r])) == [p, q, r & 60];
  }

  lemma CanonicalTail(group: seq<Sextet>, rest: seq<Sextet>)
    requires |group| == 4
    ensures Canonical(group + rest) <==> Canonical(rest)
  {
    assert |group + rest| % 4 == |rest| % 4;
    assert rest != [] ==> (group + rest)[|group + rest| - 1] == rest[|rest| - 1];
  }

  lemma {:induction false} SextetsOfOctets(xs: seq<Sextet>)
    requires |xs| % 4 != 1
    ensures Sextets(Octets(xs)) == xs <==> Canonical(xs)
    decreases |xs|
  {
    if |xs| >= 4 {
      var rest := xs[4..];
      SextetsOfOctets(rest);
      RegroupFirst(xs[0], xs[1], xs[2], xs[3], rest);
      CanonicalTail([xs[0], xs[1], xs[2], xs[3]], rest);
      assert xs == [xs[0], xs[1], xs[2], xs[3]] + rest;
    } else if |xs| == 3 {
      ShortGroups(xs[0], xs[1], xs[2]);
      assert xs == [xs[0], xs[1], xs[2]];
    } else if |xs| == 2 {
      ShortGroups(xs[0], xs[1], 0);
      assert xs == [xs[0], xs[1]];
    }
  }

  /** A full group of sextets survives decoding and encoding, whatever follows it. */
  lemma RegroupFirst(p: Sextet, q: Sextet, r: Sextet, t: Sextet, rest: seq<Sextet>)
    ensures Sextets(Octets([p, q, r, t] + rest)) == [p, q, r, t] + Sextets(Octets(rest))
    ensures [p, q, r, t] + Sextets(Octets(rest)) == [p, q, r, t] + rest <==> Sextets(Octets(rest)) == rest
  {
    OctetsCons(p, q, r, t, rest);
    SextetsCons(B0(p, q), B1(q, r), B2(r, t), Octets(rest));
    SextetsOfBytes(p, q, r, t);
    assert ([p, q, r, t] + Sextets(Octets(rest)))[4..] == Sextets(Octets(rest));
    assert ([p, q, r, t] + rest)[4..] == rest;
  }

  /** Text in the URL alphabet decodes unless its length is 1 modulo 4, and encoding gives the same text
      back exactly when its unused trailing bits are zero. */
  lemma EncodeUndoesDecodeIff(s: string)
    requires forall c | c in s :: InUrlAlphabet(c)
    ensures FromBase64Url(s).Some? <==> |s| % 4 != 1
    ensures |s| % 4 != 1 ==>
      (forall c | c in UnUrl(s) :: InAlphabet(c)) &&
      (ToBase64Url(FromBase64Url(s).value) == s <==> Canonical(Indices(UnUrl(s))))
  {
    var t := UnUrl(s);
    forall i | 0 <= i < |s| ensures InAlphabet(t[i]) { assert s[i] in s; }
    assert Url(t) == s by { forall i | 0 <= i < |s| ensures Url(t)[i] == s[i] { assert s[i] in s; } }
    if |s| % 4 == 1 {
      OddLengthIsRefused(s, t);
    } else {
      DecodePadded(t);
      var xs := Indices(t);
      assert Repadded(s) == t + Padding(|t|);
      EncodesBackIff(s, t, xs);
    }
  }

  /** One character too many would need three padding characters, of which one stays behind. */
  lemma OddLengthIsRefused(s: string, t: string)
    requires t == UnUrl(s) && |s| % 4 == 1
    ensures FromBase64Url(s) == None
  {
    var p := Repadded(s);
    assert p == t + "===";
    assert Unpadded(p)[|t|] == '=';
    assert Unpadded(p)[|t|] in Unpadded(p);
  }

  lemma CharsOfIndices(t: string)
    requires forall c | c in t :: InAlphabet(c)
    ensures Chars(Indices(t)) == t
  {
    forall i | 0 <= i < |t| ensures Chars(Indices(t))[i] == t[i] { assert t[i] in t; IndexRoundTrip(t[i]); }
  }

  lemma {:induction false} EncodesBackIff(s: string, t: string, xs: seq<Sextet>)
    requires (forall c | c in t :: InAlphabet(c)) && |t| % 4 != 1 && Url(t) == s && UnUrl(s) == t && xs == Indices(t)
    ensures ToBase64Url(Octets(xs)) == s <==> Canonical(xs)
  {
    CharsOfIndices(t);
    var ys := Sextets(Octets(xs));
    EncodedShape(Octets(xs));
    SextetsOfOctets(xs);
    IndicesOfChars(ys);
    UnUrlOfUrl(Chars(ys));
    assert Url(Chars(ys)) == s ==> Chars(ys) == t;
  }

  /** Test vectors of section 10 of RFC 4648, and the two characters that differ in section 5. */
  lemma Vectors()
    ensures ToBase64([0x66]) == "Zg==" && ToBase64([0x66, 0x6f]) == "Zm8=" && ToBase64([0x66, 0x6f, 0x6f]) == "Zm9v"
    ensures ToBase64Url([0xfb, 0xff]) == "-_8"
  {
    assert Sextets([0x66]) == [25, 32];
    assert Sextets([0x66, 0x6f]) == [25, 38, 60];
    assert Sextets([0x66, 0x6f, 0x6f]) == [25, 38, 61, 47] + Sextets([0x66, 0x6f, 0x6f][3..]) == [25, 38, 61, 47];
    assert ToBase64([0x66]) == Chars([25, 32]) + Padding(2) == "Zg" + "==";
    assert ToBase64([0x66, 0x6f]) == Chars([25, 38, 60]) + Padding(3) == "Zm8" + "=";
    assert ToBase64([0x66, 0x6f, 0x6f]) == Chars([25, 38, 61, 47]) + Padding(4) == "Zm9v" + "";
    EncodedShape([0xfb, 0xff]);
    assert Sextets([0xfb, 0xff]) == [62, 63, 60];
    assert Url(Chars([62, 63, 60])) == "-_8";
  }
}
