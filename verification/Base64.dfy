/** Standard base64 with padding (section 4 of RFC 4648) and lowercase hexadecimal. */
module Base64 {
  import opened Numerals
  import opened Strings

  type Byte = n: int | 0 <= n < 256

  function Symbol(n: int): (c: char)
    requires 0 <= n < 64
    ensures c != '\\' && c != '='
  {
    if n < 26 then 'A' + n as char
    else if n < 52 then 'a' + (n - 26) as char
    else if n < 62 then '0' + (n - 52) as char
    else if n == 62 then '+' else '/'
  }

  function Encode(bytes: seq<Byte>): (r: string)
    ensures forall i | 0 <= i < |r| :: r[i] != '\\'
  {
    if bytes == [] then ""
    else if |bytes| == 1 then [Symbol(bytes[0] / 4), Symbol(bytes[0] % 4 * 16), '=', '=']
    else if |bytes| == 2 then
      [Symbol(bytes[0] / 4), Symbol(bytes[0] % 4 * 16 + bytes[1] / 16), Symbol(bytes[1] % 16 * 4), '=']
    else Quad(bytes[0], bytes[1], bytes[2]) + Encode(bytes[3..])
  }

  function Quad(a: Byte, b: Byte, c: Byte): (r: string)
    ensures |r| == 4 && forall i | 0 <= i < 4 :: r[i] != '\\' && r[i] != '='
  {
    [Symbol(a / 4), Symbol(a % 4 * 16 + b / 16), Symbol(b % 16 * 4 + c / 64), Symbol(c % 64)]
  }

  // ----- reading it back ---------------------------------------------------------------

  /** The value of a character by the table of RFC 4648. */
  function SymbolValue(c: char): (r: Option<int>)
    ensures r.Some? ==> 0 <= r.value < 64
  {
    if 'A' <= c <= 'Z' then Some(c as int - 'A' as int)
    else if 'a' <= c <= 'z' then Some(c as int - 'a' as int + 26)
    else if '0' <= c <= '9' then Some(c as int - '0' as int + 52)
    else if c == '+' then Some(62)
    else if c == '/' then Some(63)
    else None
  }

  /** The bytes of four characters: 24 bits cut in three, or fewer before padding. */
  function DecodeQuad(q: string): Option<seq<Byte>>
    requires |q| == 4
  {
    match (SymbolValue(q[0]), SymbolValue(q[1]), SymbolValue(q[2]), SymbolValue(q[3]))
    case (Some(a), Some(b), Some(c), Some(d)) => Some(Bytes(((a * 64 + b) * 64 + c) * 64 + d))
    case (Some(a), Some(b), Some(c), None) =>
      if q[3] == '=' then Some(Bytes(((a * 64 + b) * 64 + c) * 64)[..2]) else None
    case (Some(a), Some(b), None, None) =>
      if q[2] == '=' && q[3] == '=' then Some(Bytes((a * 64 + b) * 4096)[..1]) else None
    case _ => None
  }

  function Bytes(n: int): (r: seq<Byte>)
    requires 0 <= n < 0x1_000_000
    ensures |r| == 3
  {
    [n / 65536, n / 256 % 256, n % 256]
  }

  function Decode(text: string): Option<seq<Byte>> {
    if text == "" then Some([])
    else if |text| < 4 then None
    else
      match (DecodeQuad(text[..4]), Decode(text[4..]))
      case (Some(bytes), Some(rest)) => Some(bytes + rest)
      case _ => None
  }

  lemma SymbolReads(n: int)
    requires 0 <= n < 64
    ensures SymbolValue(Symbol(n)) == Some(n)
  {
  }

  lemma SixBitsEach(a: Byte, b: Byte, c: Byte)
    ensures ((a / 4 * 64 + (a % 4 * 16 + b / 16)) * 64 + (b % 16 * 4 + c / 64)) * 64 + c % 64 == a * 65536 + b * 256 + c
  {
    assert a == a / 4 * 4 + a % 4;
    assert b == b / 16 * 16 + b % 16;
    assert c == c / 64 * 64 + c % 64;
  }

  lemma BytesCut(a: Byte, b: Byte, c: Byte)
    ensures Bytes(a * 65536 + b * 256 + c) == [a, b, c]
  {
    var n := a * 65536 + b * 256 + c;
    assert n / 256 == a * 256 + b;
  }

  lemma QuadReads(a: Byte, b: Byte, c: Byte)
    ensures DecodeQuad(Quad(a, b, c)) == Some([a, b, c])
  {
    SymbolReads(a / 4);
    SymbolReads(a % 4 * 16 + b / 16);
    SymbolReads(b % 16 * 4 + c / 64);
    SymbolReads(c % 64);
    SixBitsEach(a, b, c);
    BytesCut(a, b, c);
  }

  lemma PaddedReads(m: int, n: int, k: int)
    requires 0 <= m < 64 && 0 <= n < 64 && 0 <= k < 64
    ensures DecodeQuad([Symbol(m), Symbol(n), '=', '=']) == Some(Bytes((m * 64 + n) * 4096)[..1])
    ensures DecodeQuad([Symbol(m), Symbol(n), Symbol(k), '=']) == Some(Bytes(((m * 64 + n) * 64 + k) * 64)[..2])
  {
    SymbolReads(m);
    SymbolReads(n);
    SymbolReads(k);
  }

  lemma SingleReads(a: Byte)
    ensures DecodeQuad(Encode([a])) == Some([a])
  {
    PaddedReads(a / 4, a % 4 * 16, 0);
    SixBitsEach(a, 0, 0);
    BytesCut(a, 0, 0);
    assert [a, 0, 0][..1] == [a];
  }

  lemma PairReads(a: Byte, b: Byte)
    ensures DecodeQuad(Encode([a, b])) == Some([a, b])
  {
    PaddedReads(a / 4, a % 4 * 16 + b / 16, b % 16 * 4);
    assert Bytes(((a / 4 * 64 + (a % 4 * 16 + b / 16)) * 64 + b % 16 * 4) * 64)[..2] == [a, b] by {
      PairCut(a, b);
    }
  }

  lemma PairCut(a: Byte, b: Byte)
    ensures 0 <= ((a / 4 * 64 + (a % 4 * 16 + b / 16)) * 64 + b % 16 * 4) * 64 < 0x1_000_000
    ensures Bytes(((a / 4 * 64 + (a % 4 * 16 + b / 16)) * 64 + b % 16 * 4) * 64)[..2] == [a, b]
  {
    SixBitsEach(a, b, 0);
    BytesCut(a, b, 0);
    assert [a, b, 0][..2] == [a, b];
  }

  lemma OneQuad(q: string)
    requires |q| == 4
    ensures Decode(q) == DecodeQuad(q)
  {
    assert q[..4] == q && q[4..] == "";
    if DecodeQuad(q).Some? {
      assert DecodeQuad(q).value + [] == DecodeQuad(q).value;
    }
  }

  lemma QuadFirst(q: string, text: string)
    requires |q| == 4 && DecodeQuad(q).Some? && Decode(text).Some?
    ensures Decode(q + text) == Some(DecodeQuad(q).value + Decode(text).value)
  {
    CutConcat(q, text);
  }

  lemma Joined(x: seq<Byte>, q: string, text: string)
    requires |x| >= 3 && |q| == 4
    requires DecodeQuad(q) == Some([x[0], x[1], x[2]]) && Decode(text) == Some(x[3..])
    ensures Decode(q + text) == Some(x)
  {
    QuadFirst(q, text);
    ThreeAndRest(x);
  }

  lemma ThreeAndRest(x: seq<Byte>)
    requires |x| >= 3
    ensures [x[0], x[1], x[2]] + x[3..] == x
  {
  }

  lemma EncodeThree(x: seq<Byte>)
    requires |x| >= 3
    ensures Encode(x) == Quad(x[0], x[1], x[2]) + Encode(x[3..])
  {
    var rest := Encode(x[3..]);
    assert Encode(x) == Quad(x[0], x[1], x[2]) + rest;
  }

  lemma UpToTwo(x: seq<Byte>)
    requires 0 < |x| < 3
    ensures Decode(Encode(x)) == Some(x)
  {
    if |x| == 1 {
      assert x == [x[0]];
      SingleReads(x[0]);
    } else {
      assert x == [x[0], x[1]];
      PairReads(x[0], x[1]);
    }
    OneQuad(Encode(x));
  }

  /** Reading by the table gives the bytes back. */
  lemma {:induction false} DecodeEncode(x: seq<Byte>)
    ensures Decode(Encode(x)) == Some(x)
  {
    if x == [] {
    } else if |x| < 3 {
      UpToTwo(x);
    } else {
      DecodeEncode(x[3..]);
      QuadReads(x[0], x[1], x[2]);
      EncodeThree(x);
      Joined(x, Quad(x[0], x[1], x[2]), Encode(x[3..]));
    }
  }

  /** Different byte strings have different base64 texts. */
  lemma EncodeInjective(x: seq<Byte>, y: seq<Byte>)
    requires Encode(x) == Encode(y)
    ensures x == y
  {
    DecodeEncode(x);
    DecodeEncode(y);
  }

  // ----- hexadecimal ------------------------------------------------------------------

  function HexByte(b: Byte): string {
    [HexDigit(b / 16), HexDigit(b % 16)]
  }

  function Hex(bytes: seq<Byte>): (r: string)
    ensures |r| == 2 * |bytes|
  {
    if bytes == [] then "" else HexByte(bytes[0]) + Hex(bytes[1..])
  }

  function DigitValue(c: char): (r: Option<int>)
    ensures r.Some? ==> 0 <= r.value < 16
  {
    if '0' <= c <= '9' then Some(c as int - '0' as int)
    else if 'a' <= c <= 'f' then Some(c as int - 'a' as int + 10)
    else if 'A' <= c <= 'F' then Some(c as int - 'A' as int + 10)
    else None
  }

  /** Two characters as `u8::from_str_radix(_, 16)` reads them: a leading plus sign is accepted. */
  function ParseByte(hi: char, lo: char): Option<Byte> {
    match (DigitValue(hi), DigitValue(lo))
    case (Some(h), Some(l)) => Some(16 * h + l)
    case (None, Some(l)) => if hi == '+' then Some(l) else None
    case _ => None
  }

  /** Pairs of digits; a last odd character is ignored. */
  function Unhex(s: string): Option<seq<Byte>> {
    if |s| < 2 then Some([])
    else
      match (ParseByte(s[0], s[1]), Unhex(s[2..]))
      case (Some(b), Some(rest)) => Some([b] + rest)
      case _ => None
  }

  lemma {:induction false} UnhexHex(bytes: seq<Byte>)
    ensures Unhex(Hex(bytes)) == Some(bytes)
  {
    if bytes == [] {
    } else {
      UnhexHex(bytes[1..]);
      HexByteParses(bytes[0]);
      var h := Hex(bytes);
      assert h[2..] == Hex(bytes[1..]);
      assert [bytes[0]] + bytes[1..] == bytes;
    }
  }

  lemma HexByteParses(b: Byte)
    ensures ParseByte(HexDigit(b / 16), HexDigit(b % 16)) == Some(b)
  {
  }
}
