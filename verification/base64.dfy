/**
 The base 64 encoding of section 4 of RFC 4648 (alphabet of Table 1, `=`
 padding), and the browser's `btoa`/`atob` built on it. `btoa` reads each
 character of a "binary string" as one byte and throws an
 `InvalidCharacterError` for a character above U+00FF.
 */
module Base64 {
  import opened Wrappers

  type byte = b: int | 0 <= b < 256
  type sextet = x: int | 0 <= x < 64

  datatype DomException = InvalidCharacterError

  /** Table 1 of RFC 4648: the character that encodes a 6-bit group. */
  function SextetChar(x: sextet): (c: char)
    ensures c != '='
  {
    if x < 26 then (65 + x) as char            // 'A'..'Z'
    else if x < 52 then (97 + (x - 26)) as char // 'a'..'z'
    else if x < 62 then (48 + (x - 52)) as char // '0'..'9'
    else if x == 62 then '+'
    else '/'
  }

  /** The 6-bit group a character of the alphabet stands for; `None` off the alphabet. */
  function CharSextet(c: char): (r: Option<sextet>)
    ensures r.Some? ==> SextetChar(r.value) == c
  {
    if 'A' <= c <= 'Z' then Some(c as int - 65)
    else if 'a' <= c <= 'z' then Some(c as int - 97 + 26)
    else if '0' <= c <= '9' then Some(c as int - 48 + 52)
    else if c == '+' then Some(62)
    else if c == '/' then Some(63)
    else None
  }

  /** Every character of the alphabet decodes back to its group. */
  lemma SextetRoundTrip(x: sextet)
    ensures CharSextet(SextetChar(x)) == Some(x)
  {
  }

  /** Three bytes as four characters, most significant bits first. */
  function EncodeQuantum(a: byte, b: byte, c: byte): string {
    [SextetChar(a / 4), SextetChar((a % 4) * 16 + b / 16), SextetChar((b % 16) * 4 + c / 64), SextetChar(c % 64)]
  }

  /** The encoding of a byte string: full quanta, then a final one or two bytes padded with `=`. */
  function Encode(bs: seq<byte>): (s: string)
    ensures |s| == 4 * ((|bs| + 2) / 3)
    ensures forall i :: 0 <= i < |s| && s[i] == '=' ==> i >= |s| - 2
  {
    if |bs| == 0 then ""
    else if |bs| == 1 then
      [SextetChar(bs[0] / 4), SextetChar((bs[0] % 4) * 16), '=', '=']
    else if |bs| == 2 then
      [SextetChar(bs[0] / 4), SextetChar((bs[0] % 4) * 16 + bs[1] / 16), SextetChar((bs[1] % 16) * 4), '=']
    else
      EncodeQuantum(bs[0], bs[1], bs[2]) + Encode(bs[3..])
  }

  /** The byte made of the six bits of `x0` and the high two bits of `x1`. */
  function FirstByte(x0: sextet, x1: sextet): byte {
    (x0 as int) * 4 + (x1 as int) / 16
  }

  /** The byte made of the low four bits of `x1` and the high four bits of `x2`. */
  function SecondByte(x1: sextet, x2: sextet): byte {
    ((x1 as int) % 16) * 16 + (x2 as int) / 4
  }

  /** The byte made of the low two bits of `x2` and the six bits of `x3`. */
  function ThirdByte(x2: sextet, x3: sextet): byte {
    ((x2 as int) % 4) * 64 + (x3 as int)
  }

  /** Four alphabet characters as three bytes. */
  function DecodeQuantum(c0: char, c1: char, c2: char, c3: char): Option<seq<byte>> {
    match (CharSextet(c0), CharSextet(c1), CharSextet(c2), CharSextet(c3))
    case (Some(x0), Some(x1), Some(x2), Some(x3)) =>
      Some([FirstByte(x0, x1), SecondByte(x1, x2), ThirdByte(x2, x3)])
    case _ => None
  }

  /**
   The last quantum, which may end in one or two `=`. The bits of its last
   character that no byte uses must be zero, so that each byte string has
   exactly one encoding (section 3.5 of RFC 4648).
   */
  function DecodeFinal(c0: char, c1: char, c2: char, c3: char): Option<seq<byte>> {
    if c2 == '=' && c3 == '=' then
      match (CharSextet(c0), CharSextet(c1))
      case (Some(x0), Some(x1)) => if x1 % 16 == 0 then Some([FirstByte(x0, x1)]) else None
      case _ => None
    else if c3 == '=' then
      match (CharSextet(c0), CharSextet(c1), CharSextet(c2))
      case (Some(x0), Some(x1), Some(x2)) =>
        if x2 % 4 == 0 then Some([FirstByte(x0, x1), SecondByte(x1, x2)]) else None
      case _ => None
    else DecodeQuantum(c0, c1, c2, c3)
  }

  /**
   Strict decoding: whole quanta, padding only in the last one, unused bits
   zero; `None` for anything else.
   */
  function Decode(s: string): (r: Option<seq<byte>>)
    decreases |s|
  {
    if |s| == 0 then Some([])
    else if |s| < 4 then None
    else if |s| == 4 then DecodeFinal(s[0], s[1], s[2], s[3])
    else
      match DecodeQuantum(s[0], s[1], s[2], s[3])
      case None => None
      case Some(head) =>
        match Decode(s[4..])
        case None => None
        case Some(tail) => Some(head + tail)
  }

  lemma FirstByteOf(a: byte, b: byte)
    ensures FirstByte(a / 4, (a % 4) * 16 + b / 16) == a
  {
    var x1 := (a % 4) * 16 + b / 16;
    assert x1 / 16 == a % 4;
  }

  lemma QuantumRoundTrip(a: byte, b: byte, c: byte)
    ensures var q := EncodeQuantum(a, b, c); DecodeQuantum(q[0], q[1], q[2], q[3]) == Some([a, b, c])
  {
    var x0: sextet := a / 4;
    var x1: sextet := (a % 4) * 16 + b / 16;
    var x2: sextet := (b % 16) * 4 + c / 64;
    var x3: sextet := c % 64;
    SextetRoundTrip(x0);
    SextetRoundTrip(x1);
    SextetRoundTrip(x2);
    SextetRoundTrip(x3);
    FirstByteOf(a, b);
    assert x1 % 16 == b / 16;
    assert x2 / 4 == b % 16;
    assert SecondByte(x1, x2) == b;
    assert x2 % 4 == c / 64;
    assert ThirdByte(x2, x3) == c;
  }

  lemma OneByteRoundTrip(a: byte)
    ensures Decode(Encode([a])) == Some([a])
  {
    SextetRoundTrip(a / 4);
    SextetRoundTrip((a % 4) * 16);
  }

  lemma TwoByteRoundTrip(a: byte, b: byte)
    ensures Decode(Encode([a, b])) == Some([a, b])
  {
    var x1: sextet := (a % 4) * 16 + b / 16;
    SextetRoundTrip(a / 4);
    SextetRoundTrip(x1);
    SextetRoundTrip((b % 16) * 4);
    assert x1 % 16 == b / 16;
    assert SecondByte(x1, (b % 16) * 4) == b;
    assert FirstByte(a / 4, x1) == a;
  }

  /** Decoding inverts encoding, for every byte string. */
  lemma {:induction false} DecodeEncode(bs: seq<byte>)
    ensures Decode(Encode(bs)) == Some(bs)
    decreases |bs|
  {
    if |bs| == 1 {
      assert bs == [bs[0]];
      OneByteRoundTrip(bs[0]);
    } else if |bs| == 2 {
      assert bs == [bs[0], bs[1]];
      TwoByteRoundTrip(bs[0], bs[1]);
    } else if |bs| >= 3 {
      var s := Encode(bs);
      var q := EncodeQuantum(bs[0], bs[1], bs[2]);
      QuantumRoundTrip(bs[0], bs[1], bs[2]);
      assert s == q + Encode(bs[3..]);
      assert bs == [bs[0], bs[1], bs[2]] + bs[3..];
      if |bs| == 3 {
        assert s == q && q[2] != '=' && q[3] != '=';
        assert bs == [bs[0], bs[1], bs[2]];
      } else {
        assert s[..4] == q;
        assert s[4..] == Encode(bs[3..]);
        DecodeEncode(bs[3..]);
      }
    }
  }

  lemma SplitFirst(x0: sextet, x1: sextet)
    ensures FirstByte(x0, x1) / 4 == x0 && FirstByte(x0, x1) % 4 == x1 / 16
  {
  }

  lemma SplitSecond(x1: sextet, x2: sextet)
    ensures SecondByte(x1, x2) / 16 == x1 % 16 && SecondByte(x1, x2) % 16 == x2 / 4
  {
  }

  lemma SplitThird(x2: sextet, x3: sextet)
    ensures ThirdByte(x2, x3) / 64 == x2 % 4 && ThirdByte(x2, x3) % 64 == x3
  {
  }

  /** Re-encoding the three bytes of four alphabet characters gives those characters. */
  lemma QuantumInverse(c0: char, c1: char, c2: char, c3: char)
    requires DecodeQuantum(c0, c1, c2, c3).Some?
    ensures var b := DecodeQuantum(c0, c1, c2, c3).value; EncodeQuantum(b[0], b[1], b[2]) == [c0, c1, c2, c3]
  {
    var x0, x1, x2, x3 := CharSextet(c0).value, CharSextet(c1).value, CharSextet(c2).value, CharSextet(c3).value;
    SplitFirst(x0, x1);
    SplitSecond(x1, x2);
    SplitThird(x2, x3);
    assert (x1 / 16) * 16 + x1 % 16 == x1;
    assert (x2 / 4) * 4 + x2 % 4 == x2;
  }

  /** Re-encoding the bytes of a valid final quantum gives that quantum. */
  lemma FinalInverse(c0: char, c1: char, c2: char, c3: char)
    requires DecodeFinal(c0, c1, c2, c3).Some?
    ensures Encode(DecodeFinal(c0, c1, c2, c3).value) == [c0, c1, c2, c3]
  {
    if c2 == '=' && c3 == '=' {
      var x0, x1 := CharSextet(c0).value, CharSextet(c1).value;
      SplitFirst(x0, x1);
      assert (x1 / 16) * 16 == x1;
    } else if c3 == '=' {
      var x0, x1, x2 := CharSextet(c0).value, CharSextet(c1).value, CharSextet(c2).value;
      SplitFirst(x0, x1);
      SplitSecond(x1, x2);
      assert (x1 / 16) * 16 + x1 % 16 == x1;
      assert (x2 / 4) * 4 == x2;
    } else {
      QuantumInverse(c0, c1, c2, c3);
      var b := DecodeQuantum(c0, c1, c2, c3).value;
      assert Encode(b) == EncodeQuantum(b[0], b[1], b[2]) + Encode(b[3..]);
      assert b[3..] == [];
    }
  }

  /**
   Encoding inverts decoding: a string that decodes is the one encoding of
   its bytes, so no other text decodes to the same bytes.
   */
  lemma {:induction false} EncodeDecode(s: string)
    requires Decode(s).Some?
    ensures Encode(Decode(s).value) == s
    decreases |s|
  {
    if |s| == 4 {
      FinalInverse(s[0], s[1], s[2], s[3]);
      assert s == [s[0], s[1], s[2], s[3]];
    } else if |s| > 4 {
      var head := DecodeQuantum(s[0], s[1], s[2], s[3]).value;
      var tail := Decode(s[4..]).value;
      var bs := head + tail;
      QuantumInverse(s[0], s[1], s[2], s[3]);
      EncodeDecode(s[4..]);
      assert bs[..3] == head && bs[3..] == tail;
      assert Encode(bs) == EncodeQuantum(bs[0], bs[1], bs[2]) + Encode(bs[3..]);
      assert s == s[..4] + s[4..] && s[..4] == [s[0], s[1], s[2], s[3]];
    }
  }

  /** `btoa` of a binary string is the encoding of its character codes. */
  lemma BtoaBytes(s: string, bs: seq<byte>)
    requires |s| == |bs| && forall i :: 0 <= i < |s| ==> s[i] as int == bs[i]
    ensures Btoa(s) == Success(Encode(bs))
  {
    assert BinaryBytes(s) == bs;
  }

  /** A leading full quantum is encoded on its own, ahead of the rest. */
  lemma EncodeLeadingQuantum(a: byte, b: byte, c: byte, rest: seq<byte>)
    ensures Encode([a, b, c] + rest) == EncodeQuantum(a, b, c) + Encode(rest)
  {
    assert ([a, b, c] + rest)[3..] == rest;
  }

  lemma QuantumFoo()
    ensures EncodeQuantum(102, 111, 111) == "Zm9v"
  {
    assert SextetChar(25) == 'Z' && SextetChar(38) == 'm' && SextetChar(61) == '9' && SextetChar(47) == 'v';
  }

  /** The test vectors of section 10 of RFC 4648 that fit in one quantum. */
  lemma TestVectorsOneQuantum()
    ensures Btoa("") == Success("")
    ensures Btoa("f") == Success("Zg==")
    ensures Btoa("fo") == Success("Zm8=")
    ensures Btoa("foo") == Success("Zm9v")
  {
    BtoaBytes("foo", [102, 111, 111]);
    EncodeLeadingQuantum(102, 111, 111, []);
    assert [102, 111, 111] + [] == [102, 111, 111];
    QuantumFoo();
    assert Encode([102, 111, 111]) == "Zm9v" + "";
    assert "Zm9v" + "" == "Zm9v";
  }

  /** Test vector "foob" of section 10 of RFC 4648. */
  lemma TestVectorFoob()
    ensures Btoa("foob") == Success("Zm9vYg==")
  {
    QuantumFoo();
    BtoaBytes("foob", [102, 111, 111] + [98]);
    EncodeLeadingQuantum(102, 111, 111, [98]);
    assert SextetChar(24) == 'Y' && SextetChar(32) == 'g';
    assert Encode([98]) == "Yg==";
    assert "Zm9v" + "Yg==" == "Zm9vYg==";
  }

  /** Test vector "fooba" of section 10 of RFC 4648. */
  lemma TestVectorFooba()
    ensures Btoa("fooba") == Success("Zm9vYmE=")
  {
    QuantumFoo();
    BtoaBytes("fooba", [102, 111, 111] + [98, 97]);
    EncodeLeadingQuantum(102, 111, 111, [98, 97]);
    assert SextetChar(24) == 'Y' && SextetChar(38) == 'm' && SextetChar(4) == 'E';
    assert Encode([98, 97]) == "YmE=";
    assert "Zm9v" + "YmE=" == "Zm9vYmE=";
  }

  /** Test vector "foobar" of section 10 of RFC 4648. */
  lemma TestVectorFoobar()
    ensures Btoa("foobar") == Success("Zm9vYmFy")
  {
    QuantumFoo();
    BtoaBytes("foobar", [102, 111, 111] + [98, 97, 114]);
    EncodeLeadingQuantum(102, 111, 111, [98, 97, 114]);
    EncodeLeadingQuantum(98, 97, 114, []);
    assert [98, 97, 114] + [] == [98, 97, 114];
    assert SextetChar(24) == 'Y' && SextetChar(38) == 'm' && SextetChar(5) == 'F' && SextetChar(50) == 'y';
    assert Encode([98, 97, 114]) == "YmFy";
    assert "Zm9v" + "YmFy" == "Zm9vYmFy";
  }

  /** Every character is at most U+00FF, so that it fits one byte. */
  predicate IsBinaryString(s: string) {
    forall i :: 0 <= i < |s| ==> s[i] as int < 256
  }

  /** The bytes a binary string stands for, one per character. */
  function BinaryBytes(s: string): (bs: seq<byte>)
    requires IsBinaryString(s)
    ensures |bs| == |s| && forall i :: 0 <= i < |s| ==> bs[i] == s[i] as int
  {
    if |s| == 0 then [] else [s[0] as int] + BinaryBytes(s[1..])
  }

  /** The binary string whose characters are the given bytes. */
  function BytesString(bs: seq<byte>): (s: string)
    ensures |s| == |bs| && forall i :: 0 <= i < |bs| ==> s[i] as int == bs[i]
  {
    if |bs| == 0 then "" else [bs[0] as char] + BytesString(bs[1..])
  }

  /** Reading the characters of `BytesString(bs)` as bytes gives `bs` back. */
  lemma BytesStringBinary(bs: seq<byte>)
    ensures IsBinaryString(BytesString(bs)) && BinaryBytes(BytesString(bs)) == bs
  {
  }

  /** `window.btoa`: the base 64 encoding of a binary string. */
  function Btoa(s: string): (r: Result<string, DomException>)
    ensures r.Failure? <==> !IsBinaryString(s)
  {
    if IsBinaryString(s) then Success(Encode(BinaryBytes(s))) else Failure(InvalidCharacterError)
  }

  /** `window.atob`, restricted to canonical padded input. */
  function Atob(s: string): (r: Result<string, DomException>) {
    match Decode(s)
    case Some(bs) => Success(BytesString(bs))
    case None => Failure(InvalidCharacterError)
  }

  /** `btoa` gives back the text that `atob` accepted: canonical text is the only encoding. */
  lemma BtoaAtob(t: string)
    requires Atob(t).Success?
    ensures Btoa(Atob(t).value) == Success(t)
  {
    var bs := Decode(t).value;
    BytesStringBinary(bs);
    EncodeDecode(t);
  }

  /** `atob` gives back the binary string that `btoa` encoded. */
  lemma AtobBtoa(s: string)
    requires IsBinaryString(s)
    ensures Btoa(s).Success? && Atob(Btoa(s).value) == Success(s)
  {
    DecodeEncode(BinaryBytes(s));
    assert BytesString(BinaryBytes(s)) == s;
  }
}
