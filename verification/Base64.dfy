/**
 * Base 64 (section 4 of RFC 4648) and the length computed from a text before it is decoded.
 */
module Base64 {
  import opened Wrappers

  type Byte = b: int | 0 <= b < 256

  type Sextet = v: int | 0 <= v < 64

  const PAD := '='

  // ----------------------------------------------------------------- alphabet

  function Symbol(v: Sextet): (c: char)
    ensures c != PAD
  {
    if v < 26 then 'A' + v as char
    else if v < 52 then 'a' + (v - 26) as char
    else if v < 62 then '0' + (v - 52) as char
    else if v == 62 then '+'
    else '/'
  }

  function Sextets(c: char): Option<Sextet> {
    if 'A' <= c <= 'Z' then Some(c as int - 'A' as int)
    else if 'a' <= c <= 'z' then Some(c as int - 'a' as int + 26)
    else if '0' <= c <= '9' then Some(c as int - '0' as int + 52)
    else if c == '+' then Some(62)
    else if c == '/' then Some(63)
    else None
  }

  lemma SymbolRoundTrip(v: Sextet, c: char)
    ensures Sextets(Symbol(v)) == Some(v)
    ensures Sextets(c).Some? ==> Symbol(Sextets(c).value) == c
  {}

  // ------------------------------------------------------------- three and four

  function Encode(bytes: seq<Byte>): string {
    if bytes == [] then []
    else if |bytes| == 1 then [Symbol(bytes[0] / 4), Symbol(bytes[0] % 4 * 16), PAD, PAD]
    else if |bytes| == 2 then
      [Symbol(bytes[0] / 4), Symbol(bytes[0] % 4 * 16 + bytes[1] / 16), Symbol(bytes[1] % 16 * 4), PAD]
    else EncodeGroup(bytes[0], bytes[1], bytes[2]) + Encode(bytes[3..])
  }

  function EncodeGroup(a: Byte, b: Byte, c: Byte): (r: string)
    ensures |r| == 4 && r[3] != PAD
  {
    [Symbol(a / 4), Symbol(a % 4 * 16 + b / 16), Symbol(b % 16 * 4 + c / 64), Symbol(c % 64)]
  }

  function DecodeGroup(w: Sextet, x: Sextet, y: Sextet, z: Sextet): seq<Byte> {
    [w * 4 + x / 16, x % 16 * 16 + y / 4, y % 4 * 64 + z]
  }

  /** A last group with padding; the bits it leaves over must be zero. */
  function DecodePadded(text: string): Option<seq<Byte>>
    requires |text| == 4
  {
    var w, x, y := Sextets(text[0]), Sextets(text[1]), Sextets(text[2]);
    if w.None? || x.None? then None
    else if text[2] == PAD then
      if x.value % 16 == 0 then Some([w.value * 4 + x.value / 16]) else None
    else if y.None? || y.value % 4 != 0 then None
    else Some([w.value * 4 + x.value / 16, x.value % 16 * 16 + y.value / 4])
  }

  function Decode(text: string): Option<seq<Byte>> {
    if text == [] then Some([])
    else if |text| < 4 then None
    else if |text| == 4 && text[3] == PAD then DecodePadded(text)
    else
      var w, x, y, z := Sextets(text[0]), Sextets(text[1]), Sextets(text[2]), Sextets(text[3]);
      var rest := Decode(text[4..]);
      if w.None? || x.None? || y.None? || z.None? || rest.None? then None
      else Some(DecodeGroup(w.value, x.value, y.value, z.value) + rest.value)
  }

  lemma PackedBits(high: int, low: int, width: int)
    requires width == 4 || width == 16 || width == 64
    requires 0 <= low < width
    ensures (high * width + low) / width == high && (high * width + low) % width == low
  {}

  lemma GroupUnpacks(a: Byte, b: Byte, c: Byte)
    ensures DecodeGroup(a / 4, a % 4 * 16 + b / 16, b % 16 * 4 + c / 64, c % 64) == [a, b, c]
  {
    PackedBits(a % 4, b / 16, 16);
    PackedBits(b % 16, c / 64, 4);
  }

  lemma GroupPacks(w: Sextet, x: Sextet, y: Sextet, z: Sextet)
    ensures var r := DecodeGroup(w, x, y, z);
            EncodeGroup(r[0], r[1], r[2]) == [Symbol(w), Symbol(x), Symbol(y), Symbol(z)]
  {
    PackedBits(w, x / 16, 4);
    PackedBits(x % 16, y / 4, 16);
    PackedBits(y % 4, z, 64);
  }

  lemma DecodeOfGroup(a: Byte, b: Byte, c: Byte, rest: string)
    ensures Decode(EncodeGroup(a, b, c) + rest) ==
            if Decode(rest).None? then None else Some([a, b, c] + Decode(rest).value)
  {
    var text := EncodeGroup(a, b, c) + rest;
    var w, x, y, z := a / 4, a % 4 * 16 + b / 16, b % 16 * 4 + c / 64, c % 64;
    assert text[4..] == rest;
    SymbolRoundTrip(w, PAD);
    SymbolRoundTrip(x, PAD);
    SymbolRoundTrip(y, PAD);
    SymbolRoundTrip(z, PAD);
    GroupUnpacks(a, b, c);
  }

  lemma DecodeOfOne(a: Byte)
    ensures Decode(Encode([a])) == Some([a])
  {
    SymbolRoundTrip(a / 4, PAD);
    SymbolRoundTrip(a % 4 * 16, PAD);
    PackedBits(a % 4, 0, 16);
    assert Encode([a]) == [Symbol(a / 4), Symbol(a % 4 * 16), PAD, PAD];
  }

  lemma DecodeOfTwo(a: Byte, b: Byte)
    ensures Decode(Encode([a, b])) == Some([a, b])
  {
    SymbolRoundTrip(a / 4, PAD);
    SymbolRoundTrip(a % 4 * 16 + b / 16, PAD);
    SymbolRoundTrip(b % 16 * 4, PAD);
    PackedBits(a % 4, b / 16, 16);
    PackedBits(b % 16, 0, 4);
    assert Encode([a, b]) == [Symbol(a / 4), Symbol(a % 4 * 16 + b / 16), Symbol(b % 16 * 4), PAD];
  }

  lemma {:induction false} DecodeOfEncode(bytes: seq<Byte>)
    ensures Decode(Encode(bytes)) == Some(bytes)
  {
    if |bytes| >= 3 {
      DecodeOfEncode(bytes[3..]);
      DecodeOfGroup(bytes[0], bytes[1], bytes[2], Encode(bytes[3..]));
      assert bytes == [bytes[0], bytes[1], bytes[2]] + bytes[3..];
    } else if |bytes| == 2 {
      DecodeOfTwo(bytes[0], bytes[1]);
      assert bytes == [bytes[0], bytes[1]];
    } else if |bytes| == 1 {
      DecodeOfOne(bytes[0]);
      assert bytes == [bytes[0]];
    }
  }

  lemma EncodeOfLast(text: string, bytes: seq<Byte>)
    requires |text| == 4 && text[3] == PAD && DecodePadded(text) == Some(bytes)
    ensures Encode(bytes) == text
  {
    var w, x := Sextets(text[0]).value, Sextets(text[1]).value;
    SymbolRoundTrip(w, text[0]);
    SymbolRoundTrip(x, text[1]);
    PackedBits(w, x / 16, 4);
    if text[2] != PAD {
      var y := Sextets(text[2]).value;
      SymbolRoundTrip(y, text[2]);
      PackedBits(x % 16, y / 4, 16);
    }
  }

  lemma EncodeOfGroup(text: string, rest: seq<Byte>)
    requires |text| >= 4 && forall i :: 0 <= i < 4 ==> Sextets(text[i]).Some?
    ensures var group :=
              DecodeGroup(Sextets(text[0]).value, Sextets(text[1]).value, Sextets(text[2]).value, Sextets(text[3]).value);
            Encode(group + rest) == text[..4] + Encode(rest)
  {
    var w, x, y, z := Sextets(text[0]).value, Sextets(text[1]).value, Sextets(text[2]).value, Sextets(text[3]).value;
    SymbolRoundTrip(w, text[0]);
    SymbolRoundTrip(x, text[1]);
    SymbolRoundTrip(y, text[2]);
    SymbolRoundTrip(z, text[3]);
    GroupPacks(w, x, y, z);
    assert (DecodeGroup(w, x, y, z) + rest)[3..] == rest;
    assert text[..4] == [text[0], text[1], text[2], text[3]];
  }

  lemma {:induction false} EncodeOfDecode(text: string, bytes: seq<Byte>)
    requires Decode(text) == Some(bytes)
    ensures Encode(bytes) == text
  {
    if text == [] {
    } else if |text| == 4 && text[3] == PAD {
      EncodeOfLast(text, bytes);
    } else {
      var rest := Decode(text[4..]).value;
      EncodeOfDecode(text[4..], rest);
      EncodeOfGroup(text, rest);
      assert text == text[..4] + text[4..];
    }
  }

  /** The decoder accepts exactly the encodings, each for its own bytes. */
  lemma DecodesExactlyEncodings(text: string, bytes: seq<Byte>)
    ensures Decode(text) == Some(bytes) <==> text == Encode(bytes)
  {
    DecodeOfEncode(bytes);
    if Decode(text) == Some(bytes) { EncodeOfDecode(text, bytes); }
  }

  lemma {:induction false} EncodedLength(bytes: seq<Byte>)
    ensures |Encode(bytes)| == (|bytes| + 2) / 3 * 4
  {
    if |bytes| >= 3 {
      EncodedLength(bytes[3..]);
      assert (|bytes| + 2) / 3 == 1 + (|bytes[3..]| + 2) / 3;
    }
  }

  /** Test vectors of section 10 of RFC 4648: the order of the bits, the alphabet and the padding. */
  lemma StandardVectors()
    ensures Encode([0x66]) == "Zg==" && Encode([0x66, 0x6F]) == "Zm8=" && Encode([0x66, 0x6F, 0x6F]) == "Zm9v"
    ensures Encode([0x66, 0x6F, 0x6F, 0x62, 0x61, 0x72]) == "Zm9vYmFy" && Encode([0xFB, 0xFF, 0xBF]) == "+/+/"
  {
    assert [0x66, 0x6F, 0x6F][3..] == [] && [0xFB, 0xFF, 0xBF][3..] == [];
    assert [0x66, 0x6F, 0x6F, 0x62, 0x61, 0x72][3..] == [0x62, 0x61, 0x72] && [0x62, 0x61, 0x72][3..] == [];
  }

  // ---------------------------------------------------- the length, not decoded

  function TrailingPads(text: string): nat {
    if text == [] || text[|text| - 1] != PAD then 0 else 1 + TrailingPads(text[..|text| - 1])
  }

  function DecodedLen(encoded: string): Option<nat> {
    if encoded == [] || |encoded| % 4 != 0 then None
    else
      var padding := TrailingPads(encoded);
      if padding > 2 || |encoded| / 4 * 3 < padding then None else Some(|encoded| / 4 * 3 - padding)
  }

  lemma {:induction false} PadsOfTail(head: string, tail: string)
    requires head != [] && head[|head| - 1] != PAD
    ensures TrailingPads(head + tail) == TrailingPads(tail)
    decreases |tail|
  {
    var text := head + tail;
    if tail == [] {
      assert text == head;
    } else if tail[|tail| - 1] == PAD {
      PadsOfTail(head, tail[..|tail| - 1]);
      assert text[..|text| - 1] == head + tail[..|tail| - 1];
    }
  }

  function Padding(length: nat): nat {
    if length % 3 == 0 then 0 else 3 - length % 3
  }

  lemma PaddingRepeats(length: nat)
    requires length >= 3
    ensures Padding(length - 3) == Padding(length)
  {
    assert (length - 3) % 3 == length % 3;
  }

  lemma PadsOfLast(bytes: seq<Byte>)
    requires |bytes| == 1 || |bytes| == 2
    ensures TrailingPads(Encode(bytes)) == 3 - |bytes|
  {
    var text := Encode(bytes);
    assert text == text[..4 - (3 - |bytes|)] + seq(3 - |bytes|, _ => PAD);
    PadsOfTail(text[..4 - (3 - |bytes|)], seq(3 - |bytes|, _ => PAD));
    AllPads(3 - |bytes|);
  }

  lemma {:induction false} AllPads(n: nat)
    ensures TrailingPads(seq(n, _ => PAD)) == n
  {
    if n > 0 {
      AllPads(n - 1);
      assert seq(n, _ => PAD)[..n - 1] == seq(n - 1, _ => PAD);
    }
  }

  lemma {:induction false} PadsOfEncoding(bytes: seq<Byte>)
    ensures TrailingPads(Encode(bytes)) == Padding(|bytes|)
  {
    if |bytes| >= 3 {
      PadsOfEncoding(bytes[3..]);
      PadsOfTail(EncodeGroup(bytes[0], bytes[1], bytes[2]), Encode(bytes[3..]));
      PaddingRepeats(|bytes|);
    } else if bytes != [] {
      PadsOfLast(bytes);
    }
  }

  lemma DecodedLenOfQuads(text: string, quads: nat)
    requires quads > 0 && |text| == quads * 4 && TrailingPads(text) <= 2
    ensures DecodedLen(text) == Some(quads * 3 - TrailingPads(text))
  {
    assert |text| / 4 == quads && |text| % 4 == 0;
  }

  lemma QuadsHoldTriples(length: nat)
    ensures (length + 2) / 3 * 3 == length + Padding(length)
  {
    var triples, rest := length / 3, length % 3;
    assert length + 2 == 3 * triples + (rest + 2);
    assert (length + 2) / 3 == triples + (rest + 2) / 3;
  }

  /** The length computed from the text is the length of the bytes, for every non-empty byte string. */
  lemma DecodedLenIsExact(bytes: seq<Byte>)
    requires bytes != []
    ensures DecodedLen(Encode(bytes)) == Some(|bytes|)
  {
    var text, quads := Encode(bytes), (|bytes| + 2) / 3;
    assert |text| == quads * 4 by { EncodedLength(bytes); }
    assert TrailingPads(text) == Padding(|bytes|) by { PadsOfEncoding(bytes); }
    assert quads * 3 == |bytes| + Padding(|bytes|) by { QuadsHoldTriples(|bytes|); }
    DecodedLenOfQuads(text, quads);
  }
}
