/**
 * Base64 encoding with padding, as in section 4 of RFC 4648 (the "base64"
 * encoding of Node's Buffer and of fs.readFileSync).
 *
 * Encode turns every group of three bytes into four characters of the
 * 64-character alphabet; a final group of one or two bytes is padded with
 * "=". Decode is the strict inverse: it accepts exactly the strings Encode
 * produces.
 */
module Base64 {
  import opened Wrappers

  type byte = b: int | 0 <= b < 256
  type sextet = s: int | 0 <= s < 64

  /** The character that stands for a 6-bit value (table 1 of RFC 4648). */
  function CharOf(s: sextet): (c: char)
    ensures c != '='
  {
    if s < 26 then ('A' as int + s) as char
    else if s < 52 then ('a' as int + (s - 26)) as char
    else if s < 62 then ('0' as int + (s - 52)) as char
    else if s == 62 then '+'
    else '/'
  }

  /** The 6-bit value a character stands for, or None outside the alphabet. */
  function SextetOf(c: char): (r: Option<sextet>)
    ensures r.Some? ==> CharOf(r.value) == c
  {
    if 'A' <= c <= 'Z' then Some(c as int - 'A' as int)
    else if 'a' <= c <= 'z' then Some(c as int - 'a' as int + 26)
    else if '0' <= c <= '9' then Some(c as int - '0' as int + 52)
    else if c == '+' then Some(62)
    else if c == '/' then Some(63)
    else None
  }

  lemma SextetOfCharOf(s: sextet)
    ensures SextetOf(CharOf(s)) == Some(s)
  {
  }

  predicate InAlphabet(c: char)
  {
    SextetOf(c).Some?
  }

  // ---- one quantum: three bytes <-> four characters ----
  // A quantum of bytes b0 b1 b2 is the 24-bit group b0 * 2^16 + b1 * 2^8 + b2,
  // read as four 6-bit values s0 s1 s2 s3 (section 4 of RFC 4648).

  function Split0(b0: byte): sextet { b0 / 4 }
  function Split1(b0: byte, b1: byte): sextet { (b0 % 4) * 16 + b1 / 16 }
  function Split2(b1: byte, b2: byte): sextet { (b1 % 16) * 4 + b2 / 64 }
  function Split3(b2: byte): sextet { b2 % 64 }

  function Join0(s0: sextet, s1: sextet): byte { s0 * 4 + s1 / 16 }
  function Join1(s1: sextet, s2: sextet): byte { (s1 % 16) * 16 + s2 / 4 }
  function Join2(s2: sextet, s3: sextet): byte { (s2 % 4) * 64 + s3 }

  lemma JoinSplit(b0: byte, b1: byte, b2: byte)
    ensures Join0(Split0(b0), Split1(b0, b1)) == b0
    ensures Join1(Split1(b0, b1), Split2(b1, b2)) == b1
    ensures Join2(Split2(b1, b2), Split3(b2)) == b2
  {
  }

  lemma SplitJoin(s0: sextet, s1: sextet, s2: sextet, s3: sextet)
    ensures Split0(Join0(s0, s1)) == s0
    ensures Split1(Join0(s0, s1), Join1(s1, s2)) == s1
    ensures Split2(Join1(s1, s2), Join2(s2, s3)) == s2
    ensures Split3(Join2(s2, s3)) == s3
  {
  }

  function EncodeQuantum(b0: byte, b1: byte, b2: byte): string
  {
    [CharOf(Split0(b0)), CharOf(Split1(b0, b1)), CharOf(Split2(b1, b2)), CharOf(Split3(b2))]
  }

  /** One final byte: two characters and "==". */
  function EncodeOne(b0: byte): string
  {
    [CharOf(Split0(b0)), CharOf(Split1(b0, 0)), '=', '=']
  }

  /** Two final bytes: three characters and "=". */
  function EncodeTwo(b0: byte, b1: byte): string
  {
    [CharOf(Split0(b0)), CharOf(Split1(b0, b1)), CharOf(Split2(b1, 0)), '=']
  }

  /**
   * The padded Base64 text of a byte sequence (section 4 of RFC 4648): it
   * is made only of characters of the alphabet and the pad character "=".
   */
  function Encode(bs: seq<byte>): (r: string)
    ensures forall i :: 0 <= i < |r| ==> InAlphabet(r[i]) || r[i] == '='
    decreases |bs|
  {
    if |bs| == 0 then ""
    else
      SextetOfCharOf(Split0(bs[0]));
      if |bs| == 1 then
        SextetOfCharOf(Split1(bs[0], 0));
        EncodeOne(bs[0])
      else
        SextetOfCharOf(Split1(bs[0], bs[1]));
        if |bs| == 2 then
          SextetOfCharOf(Split2(bs[1], 0));
          EncodeTwo(bs[0], bs[1])
        else
          SextetOfCharOf(Split2(bs[1], bs[2]));
          SextetOfCharOf(Split3(bs[2]));
          EncodeQuantum(bs[0], bs[1], bs[2]) + Encode(bs[3..])
  }

  /** Four alphabet characters back to three bytes. */
  function DecodeQuantum(q: string): (r: Option<seq<byte>>)
    requires |q| == 4
  {
    if InAlphabet(q[0]) && InAlphabet(q[1]) && InAlphabet(q[2]) && InAlphabet(q[3]) then
      var s0, s1, s2, s3 := SextetOf(q[0]).value, SextetOf(q[1]).value, SextetOf(q[2]).value, SextetOf(q[3]).value;
      Some([Join0(s0, s1), Join1(s1, s2), Join2(s2, s3)])
    else None
  }

  /** "xy==": one byte; the low four bits of y are unused and must be zero. */
  function DecodeOne(c0: char, c1: char): (r: Option<seq<byte>>)
  {
    if InAlphabet(c0) && InAlphabet(c1) && SextetOf(c1).value % 16 == 0 then
      Some([Join0(SextetOf(c0).value, SextetOf(c1).value)])
    else None
  }

  /** "xyz=": two bytes; the low two bits of z are unused and must be zero. */
  function DecodeTwo(c0: char, c1: char, c2: char): (r: Option<seq<byte>>)
  {
    if InAlphabet(c0) && InAlphabet(c1) && InAlphabet(c2) && SextetOf(c2).value % 4 == 0 then
      var s0, s1, s2 := SextetOf(c0).value, SextetOf(c1).value, SextetOf(c2).value;
      Some([Join0(s0, s1), Join1(s1, s2)])
    else None
  }

  /**
   * The last quantum, which may carry one or two "=" of padding; the bits
   * that padding leaves unused must be zero (section 3.5 of RFC 4648).
   */
  function DecodeLast(q: string): (r: Option<seq<byte>>)
    requires |q| == 4
  {
    if q[3] != '=' then DecodeQuantum(q)
    else if q[2] == '=' then DecodeOne(q[0], q[1])
    else DecodeTwo(q[0], q[1], q[2])
  }

  function Decode(s: string): (r: Option<seq<byte>>)
    decreases |s|
  {
    if |s| == 0 then Some([])
    else if |s| < 4 then None
    else if |s| == 4 then DecodeLast(s)
    else match DecodeQuantum(s[..4])
      case None => None
      case Some(head) =>
        match Decode(s[4..])
        case None => None
        case Some(tail) => Some(head + tail)
  }

  // ---- properties ----

  /** The encoded length is 4 * ceil(n / 3) (section 4 of RFC 4648). */
  lemma {:induction false} EncodeLength(bs: seq<byte>)
    ensures |Encode(bs)| == 4 * ((|bs| + 2) / 3)
    decreases |bs|
  {
    if |bs| > 2 {
      EncodeLength(bs[3..]);
      var n := |bs| - 3;
      assert (|bs| + 2) / 3 == (n + 2) / 3 + 1;
      assert |Encode(bs)| == 4 + |Encode(bs[3..])|;
    } else if |bs| == 1 {
      assert Encode(bs) == EncodeOne(bs[0]);
    } else if |bs| == 2 {
      assert Encode(bs) == EncodeTwo(bs[0], bs[1]);
    }
  }

  lemma EncodeThree(bs: seq<byte>)
    requires |bs| == 3
    ensures Encode(bs) == EncodeQuantum(bs[0], bs[1], bs[2])
  {
    assert bs[3..] == [];
    assert Encode(bs) == EncodeQuantum(bs[0], bs[1], bs[2]) + Encode(bs[3..]);
  }

  /** With padding, the unused low bits of the last sextet are zero. */
  lemma PaddedSplitJoin(s0: sextet, s1: sextet, s2: sextet)
    ensures s1 % 16 == 0 ==> Split1(Join0(s0, s1), 0) == s1
    ensures s2 % 4 == 0 ==> Split2(Join1(s1, s2), 0) == s2
  {
  }

  lemma QuantumRoundTrip(b0: byte, b1: byte, b2: byte)
    ensures DecodeQuantum(EncodeQuantum(b0, b1, b2)) == Some([b0, b1, b2])
  {
    SextetOfCharOf(Split0(b0));
    SextetOfCharOf(Split1(b0, b1));
    SextetOfCharOf(Split2(b1, b2));
    SextetOfCharOf(Split3(b2));
    JoinSplit(b0, b1, b2);
  }

  lemma QuantumCanonical(q: string, b: seq<byte>)
    requires |q| == 4 && DecodeQuantum(q) == Some(b)
    ensures |b| == 3 && EncodeQuantum(b[0], b[1], b[2]) == q
  {
    var s0, s1, s2, s3 := SextetOf(q[0]).value, SextetOf(q[1]).value, SextetOf(q[2]).value, SextetOf(q[3]).value;
    SplitJoin(s0, s1, s2, s3);
  }

  lemma OneRoundTrip(b0: byte)
    ensures DecodeOne(CharOf(Split0(b0)), CharOf(Split1(b0, 0))) == Some([b0])
  {
    var s0, s1 := Split0(b0), Split1(b0, 0);
    SextetOfCharOf(s0);
    SextetOfCharOf(s1);
    OnePadding(b0);
    assert InAlphabet(CharOf(s0)) && InAlphabet(CharOf(s1));
    assert SextetOf(CharOf(s1)).value % 16 == 0;
    assert DecodeOne(CharOf(s0), CharOf(s1)) == Some([Join0(s0, s1)]);
  }

  lemma OnePadding(b0: byte)
    ensures Split1(b0, 0) % 16 == 0
    ensures Join0(Split0(b0), Split1(b0, 0)) == b0
  {
  }

  lemma TwoRoundTrip(b0: byte, b1: byte)
    ensures DecodeTwo(CharOf(Split0(b0)), CharOf(Split1(b0, b1)), CharOf(Split2(b1, 0))) == Some([b0, b1])
  {
    SextetOfCharOf(Split0(b0));
    SextetOfCharOf(Split1(b0, b1));
    SextetOfCharOf(Split2(b1, 0));
    JoinSplit(b0, b1, 0);
  }

  lemma LastRoundTrip(bs: seq<byte>)
    requires 1 <= |bs| <= 3
    ensures |Encode(bs)| == 4 && DecodeLast(Encode(bs)) == Some(bs)
  {
    if |bs| == 1 {
      OneRoundTrip(bs[0]);
      assert [bs[0]] == bs;
    } else if |bs| == 2 {
      TwoRoundTrip(bs[0], bs[1]);
      assert [bs[0], bs[1]] == bs;
    } else {
      EncodeThree(bs);
      QuantumRoundTrip(bs[0], bs[1], bs[2]);
      assert [bs[0], bs[1], bs[2]] == bs;
    }
  }

  lemma OneCanonical(q: string, bs: seq<byte>)
    requires |q| == 4 && q[2] == '=' && q[3] == '='
    requires DecodeOne(q[0], q[1]) == Some(bs)
    ensures Encode(bs) == q
  {
    var s0, s1 := SextetOf(q[0]).value, SextetOf(q[1]).value;
    var b0 := Join0(s0, s1);
    assert bs == [b0];
    PaddedJoin(s0, s1);
    assert CharOf(Split0(b0)) == q[0] && CharOf(Split1(b0, 0)) == q[1];
    assert Encode(bs) == EncodeOne(b0);
  }

  lemma PaddedJoin(s0: sextet, s1: sextet)
    requires s1 % 16 == 0
    ensures Split0(Join0(s0, s1)) == s0 && Split1(Join0(s0, s1), 0) == s1
  {
  }

  lemma TwoCanonical(q: string, bs: seq<byte>)
    requires |q| == 4 && q[2] != '=' && q[3] == '='
    requires DecodeTwo(q[0], q[1], q[2]) == Some(bs)
    ensures Encode(bs) == q
  {
    var s0, s1, s2 := SextetOf(q[0]).value, SextetOf(q[1]).value, SextetOf(q[2]).value;
    assert bs == [Join0(s0, s1), Join1(s1, s2)];
    PaddedSplitJoin(s0, s1, s2);
    SplitJoin(s0, s1, s2, 0);
    assert Encode(bs) == EncodeTwo(bs[0], bs[1]);
  }

  lemma LastCanonical(q: string, bs: seq<byte>)
    requires |q| == 4 && DecodeLast(q) == Some(bs)
    ensures Encode(bs) == q
  {
    if q[3] != '=' {
      QuantumCanonical(q, bs);
      EncodeThree(bs);
    } else if q[2] == '=' {
      OneCanonical(q, bs);
    } else {
      TwoCanonical(q, bs);
    }
  }

  lemma EncodeNonEmpty(bs: seq<byte>)
    requires |bs| > 0
    ensures |Encode(bs)| >= 4
  {
    EncodeLength(bs);
  }

  /** A full quantum followed by a decodable rest decodes piece by piece. */
  lemma DecodeConcat(q: string, rest: string, head: seq<byte>, tail: seq<byte>)
    requires |q| == 4 && |rest| >= 4
    requires DecodeQuantum(q) == Some(head) && Decode(rest) == Some(tail)
    ensures Decode(q + rest) == Some(head + tail)
  {
    var e := q + rest;
    assert e[..4] == q && e[4..] == rest;
  }

  /** A quantum in front of a decodable text adds its three bytes in front. */
  lemma PrependQuantum(b0: byte, b1: byte, b2: byte, rest: string, tail: seq<byte>)
    requires |rest| >= 4 && Decode(rest) == Some(tail)
    ensures Decode(EncodeQuantum(b0, b1, b2) + rest) == Some([b0, b1, b2] + tail)
  {
    QuantumRoundTrip(b0, b1, b2);
    DecodeConcat(EncodeQuantum(b0, b1, b2), rest, [b0, b1, b2], tail);
  }

  /** Decoding an encoding gives back the original bytes. */
  lemma {:induction false} DecodeEncode(bs: seq<byte>)
    ensures Decode(Encode(bs)) == Some(bs)
    decreases |bs|
  {
    if |bs| == 0 {
      assert Encode(bs) == "";
    } else if |bs| <= 3 {
      LastRoundTrip(bs);
    } else {
      DecodeEncode(bs[3..]);
      EncodeNonEmpty(bs[3..]);
      PrependQuantum(bs[0], bs[1], bs[2], Encode(bs[3..]), bs[3..]);
      assert Encode(bs) == EncodeQuantum(bs[0], bs[1], bs[2]) + Encode(bs[3..]);
      assert [bs[0], bs[1], bs[2]] + bs[3..] == bs;
    }
  }

  /** A string that decodes is exactly the encoding of what it decodes to. */
  lemma {:induction false} EncodeDecode(s: string, bs: seq<byte>)
    requires Decode(s) == Some(bs)
    ensures Encode(bs) == s
    decreases |s|
  {
    if |s| == 4 {
      LastCanonical(s, bs);
    } else if |s| > 4 {
      var head := DecodeQuantum(s[..4]).value;
      var tail := Decode(s[4..]).value;
      assert bs == head + tail;
      QuantumCanonical(s[..4], head);
      EncodeDecode(s[4..], tail);
      assert |tail| > 0;
      assert bs[..3] == head && bs[3..] == tail;
      assert Encode(bs) == EncodeQuantum(bs[0], bs[1], bs[2]) + Encode(bs[3..]);
      assert s == s[..4] + s[4..];
    }
  }

  /** Decode accepts exactly the encodings, and inverts Encode on them. */
  lemma DecodeIffEncode(s: string, bs: seq<byte>)
    ensures Decode(s) == Some(bs) <==> Encode(bs) == s
  {
    if Decode(s) == Some(bs) {
      EncodeDecode(s, bs);
    }
    if Encode(bs) == s {
      DecodeEncode(bs);
    }
  }
}
