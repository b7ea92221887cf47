/**
 Base64 with the standard alphabet and `=` padding, as section 4 of RFC 4648
 defines it: what `base64.b64encode(image).decode("utf8")` produces for raw image
 bytes. The decoder is the strict reading of the same section (length a multiple
 of four, padding only at the end, pad bits zero), so that the two directions are
 exact inverses of each other.
 */
module Base64 {
  import opened Python

  /** The 6-bit value one Base64 character stands for. */
  type sextet = x: int | 0 <= x < 64

  const Pad: char := '='

  /** The character for value `v` in the Base64 alphabet (Table 1 of RFC 4648). */
  function Char(v: sextet): (c: char)
    ensures c != Pad
  {
    if v < 26 then ('A' as int + v) as char
    else if v < 52 then ('a' as int + (v - 26)) as char
    else if v < 62 then ('0' as int + (v - 52)) as char
    else if v == 62 then '+'
    else '/'
  }

  /** The value a character of the alphabet stands for; `None` for any other character. */
  function Value(c: char): (r: Option<sextet>)
  {
    if 'A' <= c <= 'Z' then Some(c as int - 'A' as int)
    else if 'a' <= c <= 'z' then Some(c as int - 'a' as int + 26)
    else if '0' <= c <= '9' then Some(c as int - '0' as int + 52)
    else if c == '+' then Some(62)
    else if c == '/' then Some(63)
    else None
  }

  /** The alphabet is a bijection between the 64 values and its 64 characters. */
  lemma ValueChar(v: sextet)
    ensures Value(Char(v)) == Some(v)
  {
  }

  lemma CharValue(c: char)
    requires Value(c).Some?
    ensures Char(Value(c).value) == c
  {
  }

  predicate IsAlphabet(c: char)
  {
    Value(c).Some?
  }

  /** Section 4 of RFC 4648: three bytes become four characters. */
  function EncodeTriple(b0: byte, b1: byte, b2: byte): seq<char>
  {
    [Char(b0 / 4), Char((b0 % 4) * 16 + b1 / 16), Char((b1 % 16) * 4 + b2 / 64), Char(b2 % 64)]
  }

  /** A final quantum of two bytes: three characters and one pad. */
  function EncodePair(b0: byte, b1: byte): seq<char>
  {
    [Char(b0 / 4), Char((b0 % 4) * 16 + b1 / 16), Char((b1 % 16) * 4), Pad]
  }

  /** A final quantum of one byte: two characters and two pads. */
  function EncodeSingle(b0: byte): seq<char>
  {
    [Char(b0 / 4), Char((b0 % 4) * 16), Pad, Pad]
  }

  /** `base64.b64encode(s)`, read as text. */
  function Encode(s: bytes): (r: string)
    ensures |r| % 4 == 0
    decreases |s|
  {
    if |s| == 0 then []
    else if |s| == 1 then EncodeSingle(s[0])
    else if |s| == 2 then EncodePair(s[0], s[1])
    else EncodeTriple(s[0], s[1], s[2]) + Encode(s[3..])
  }

  /** The encoding of n bytes has 4 * ceil(n / 3) characters. */
  lemma {:induction false} EncodeLength(s: bytes)
    ensures |Encode(s)| == 4 * ((|s| + 2) / 3)
    decreases |s|
  {
    if |s| >= 3 {
      EncodeLength(s[3..]);
      EncodeStep(s);
      QuantaStep(|s|);
    }
  }

  lemma QuantaStep(n: int)
    requires n >= 3
    ensures 4 * ((n + 2) / 3) == 4 + 4 * ((n - 3 + 2) / 3)
  {
  }

  /** The test vectors of section 10 of RFC 4648 for "f", "fo", "foo" and "foobar". */
  lemma EncodeVectors()
    ensures Encode([102]) == "Zg=="
    ensures Encode([102, 111]) == "Zm8="
    ensures Encode([102, 111, 111]) == "Zm9v"
    ensures Encode([102, 111, 111, 98, 97, 114]) == "Zm9vYmFy"
  {
  }

  /** Every character of an encoding is in the alphabet, except pads in its last quantum. */
  lemma {:induction false} EncodeAlphabet(s: bytes)
    ensures forall i :: 0 <= i < |Encode(s)| ==> IsAlphabet(Encode(s)[i]) || Encode(s)[i] == Pad
    ensures forall i :: 0 <= i < |Encode(s)| - 4 ==> IsAlphabet(Encode(s)[i])
    decreases |s|
  {
    forall v: sextet ensures IsAlphabet(Char(v)) {
      ValueChar(v);
    }
    if |s| >= 3 {
      EncodeAlphabet(s[3..]);
    }
  }

  /**
   Decodes one quantum of four characters. Only the last quantum of the text
   (`last`) may carry padding, and the bits a pad leaves unused must be zero.
   */
  function DecodeQuantum(c0: char, c1: char, c2: char, c3: char, last: bool): (r: Option<bytes>)
  {
    var v0, v1, v2, v3 := Value(c0), Value(c1), Value(c2), Value(c3);
    if v0.None? || v1.None? then None
    else if last && c2 == Pad && c3 == Pad then JoinSingle(v0.value, v1.value)
    else if last && c3 == Pad then (if v2.Some? then JoinPair(v0.value, v1.value, v2.value) else None)
    else if v2.Some? && v3.Some? then Some(JoinTriple(v0.value, v1.value, v2.value, v3.value))
    else None
  }

  /** The byte of a final quantum `xx==`; the four bits the pads leave unused must be zero. */
  function JoinSingle(v0: sextet, v1: sextet): Option<bytes>
  {
    if v1 % 16 == 0 then Some([v0 * 4 + v1 / 16]) else None
  }

  /** The two bytes of a final quantum `xxx=`; the two bits the pad leaves unused must be zero. */
  function JoinPair(v0: sextet, v1: sextet, v2: sextet): Option<bytes>
  {
    if v2 % 4 == 0 then Some([v0 * 4 + v1 / 16, (v1 % 16) * 16 + v2 / 4]) else None
  }

  /** The three bytes of a full quantum. */
  function JoinTriple(v0: sextet, v1: sextet, v2: sextet, v3: sextet): bytes
  {
    [v0 * 4 + v1 / 16, (v1 % 16) * 16 + v2 / 4, (v2 % 4) * 64 + v3]
  }

  /** Strict Base64 decoding; `None` for text that is not the encoding of any bytes. */
  function Decode(t: string): (r: Option<bytes>)
    decreases |t|
  {
    if |t| == 0 then Some([])
    else if |t| < 4 then None
    else match DecodeQuantum(t[0], t[1], t[2], t[3], |t| == 4)
      case None => None
      case Some(q) =>
        match Decode(t[4..])
        case None => None
        case Some(rest) => Some(q + rest)
  }

  lemma DecodeTriple(b0: byte, b1: byte, b2: byte, last: bool)
    ensures var q := EncodeTriple(b0, b1, b2); DecodeQuantum(q[0], q[1], q[2], q[3], last) == Some([b0, b1, b2])
  {
    ValueChar(b0 / 4);
    ValueChar((b0 % 4) * 16 + b1 / 16);
    ValueChar((b1 % 16) * 4 + b2 / 64);
    ValueChar(b2 % 64);
    SplitTriple(b0, b1, b2);
  }

  lemma DecodePair(b0: byte, b1: byte)
    ensures var q := EncodePair(b0, b1); DecodeQuantum(q[0], q[1], q[2], q[3], true) == Some([b0, b1])
  {
    ValueChar(b0 / 4);
    ValueChar((b0 % 4) * 16 + b1 / 16);
    ValueChar((b1 % 16) * 4);
    SplitPair(b0, b1);
  }

  lemma DecodeSingle(b0: byte)
    ensures var q := EncodeSingle(b0); DecodeQuantum(q[0], q[1], q[2], q[3], true) == Some([b0])
  {
    ValueChar(b0 / 4);
    ValueChar((b0 % 4) * 16);
    SplitSingle(b0);
  }

  /** Cutting bytes into sextets and joining the sextets gives the bytes back. */
  lemma SplitTriple(b0: byte, b1: byte, b2: byte)
    ensures JoinTriple(b0 / 4, (b0 % 4) * 16 + b1 / 16, (b1 % 16) * 4 + b2 / 64, b2 % 64) == [b0, b1, b2]
  {
    SplitHigh(b0, b1);
    SplitLow(b1, b2);
  }

  lemma SplitPair(b0: byte, b1: byte)
    ensures JoinPair(b0 / 4, (b0 % 4) * 16 + b1 / 16, (b1 % 16) * 4) == Some([b0, b1])
  {
    SplitHigh(b0, b1);
    SplitLow(b1, 0);
  }

  lemma SplitSingle(b0: byte)
    ensures JoinSingle(b0 / 4, (b0 % 4) * 16) == Some([b0])
  {
    SplitHigh(b0, 0);
  }

  /** The second sextet holds the low two bits of one byte and the high four of the next. */
  lemma SplitHigh(b0: byte, b1: byte)
    ensures var v := (b0 % 4) * 16 + b1 / 16;
      0 <= v < 64 && v / 16 == b0 % 4 && v % 16 == b1 / 16 &&
      (b0 / 4) * 4 + v / 16 == b0 && (v % 16) * 16 + (b1 % 16) == b1
  {
  }

  /** The third sextet holds the low four bits of one byte and the high two of the next. */
  lemma SplitLow(b1: byte, b2: byte)
    ensures var v := (b1 % 16) * 4 + b2 / 64;
      0 <= v < 64 && v / 4 == b1 % 16 && v % 4 == b2 / 64 && (v % 4) * 64 + b2 % 64 == b2
  {
  }

  /** Decoding the encoding of any bytes gives back exactly those bytes. */
  lemma {:induction false} DecodeEncode(s: bytes)
    ensures Decode(Encode(s)) == Some(s)
    decreases |s|
  {
    if |s| == 1 {
      DecodeEncodeSingle(s);
    } else if |s| == 2 {
      DecodeEncodePair(s);
    } else if |s| >= 3 {
      DecodeEncode(s[3..]);
      DecodeEncodeTriple(s);
    }
  }

  lemma DecodeEncodeSingle(s: bytes)
    requires |s| == 1
    ensures Decode(Encode(s)) == Some(s)
  {
    var head := EncodeSingle(s[0]);
    DecodeSingle(s[0]);
    DecodeConcat(head, [], [s[0]], []);
    AppendEmpty(head);
    OneByte(s);
  }

  lemma DecodeEncodePair(s: bytes)
    requires |s| == 2
    ensures Decode(Encode(s)) == Some(s)
  {
    var head := EncodePair(s[0], s[1]);
    DecodePair(s[0], s[1]);
    DecodeConcat(head, [], [s[0], s[1]], []);
    AppendEmpty(head);
    TwoBytes(s);
  }

  lemma OneByte(s: bytes)
    requires |s| == 1
    ensures [s[0]] + [] == s
  {
  }

  lemma TwoBytes(s: bytes)
    requires |s| == 2
    ensures [s[0], s[1]] + [] == s
  {
  }

  lemma DecodeEncodeTriple(s: bytes)
    requires |s| >= 3
    requires Decode(Encode(s[3..])) == Some(s[3..])
    ensures Decode(Encode(s)) == Some(s)
  {
    var head, rest := EncodeTriple(s[0], s[1], s[2]), Encode(s[3..]);
    EncodeStep(s);
    DecodeTriple(s[0], s[1], s[2], |rest| == 0);
    DecodeConcat(head, rest, [s[0], s[1], s[2]], s[3..]);
    SplitThree(s);
  }

  /** The encoding of three or more bytes starts with the quantum of the first three. */
  lemma EncodeStep(s: bytes)
    requires |s| >= 3
    ensures Encode(s) == EncodeTriple(s[0], s[1], s[2]) + Encode(s[3..])
  {
  }

  lemma SplitThree(s: bytes)
    requires |s| >= 3
    ensures [s[0], s[1], s[2]] + s[3..] == s
  {
  }

  lemma AppendEmpty<T>(s: seq<T>)
    ensures s + [] == s
  {
  }

  /** One step of the decoder: the first quantum, then the rest of the text. */
  lemma DecodeConcat(head: string, rest: string, q: bytes, r: bytes)
    requires |head| == 4
    requires DecodeQuantum(head[0], head[1], head[2], head[3], |rest| == 0) == Some(q)
    requires Decode(rest) == Some(r)
    ensures Decode(head + rest) == Some(q + r)
  {
    QuantumSlices(head, rest);
  }

  lemma QuantumSlices(head: string, rest: string)
    requires |head| == 4
    ensures var t := head + rest;
      t[0] == head[0] && t[1] == head[1] && t[2] == head[2] && t[3] == head[3] &&
      t[4..] == rest && (|t| == 4) == (|rest| == 0)
  {
  }

  /** Splitting bytes into sextets and joining them back are inverse (first two sextets). */
  lemma JoinFirst(v0: sextet, v1: sextet)
    ensures (v0 * 4 + v1 / 16) / 4 == v0 && (v0 * 4 + v1 / 16) % 4 == v1 / 16
  {
  }

  lemma JoinSecond(v1: sextet, v2: sextet)
    ensures ((v1 % 16) * 16 + v2 / 4) / 16 == v1 % 16 && ((v1 % 16) * 16 + v2 / 4) % 16 == v2 / 4
  {
  }

  lemma JoinThird(v2: sextet, v3: sextet)
    ensures ((v2 % 4) * 64 + v3) / 64 == v2 % 4 && ((v2 % 4) * 64 + v3) % 64 == v3
  {
  }

  /** Joining sextets into bytes and cutting the bytes again gives the sextets back. */
  lemma JoinTripleSplit(v0: sextet, v1: sextet, v2: sextet, v3: sextet)
    ensures var b := JoinTriple(v0, v1, v2, v3);
      EncodeTriple(b[0], b[1], b[2]) == [Char(v0), Char(v1), Char(v2), Char(v3)]
  {
    JoinFirst(v0, v1);
    JoinSecond(v1, v2);
    JoinThird(v2, v3);
  }

  lemma JoinPairSplit(v0: sextet, v1: sextet, v2: sextet)
    requires JoinPair(v0, v1, v2).Some?
    ensures var b := JoinPair(v0, v1, v2).value;
      |b| == 2 && EncodePair(b[0], b[1]) == [Char(v0), Char(v1), Char(v2), Pad]
  {
    JoinFirst(v0, v1);
    JoinSecond(v1, v2);
  }

  lemma JoinSingleSplit(v0: sextet, v1: sextet)
    requires JoinSingle(v0, v1).Some?
    ensures var b := JoinSingle(v0, v1).value;
      |b| == 1 && EncodeSingle(b[0]) == [Char(v0), Char(v1), Pad, Pad]
  {
    JoinFirst(v0, v1);
  }

  /** Whatever a quantum decodes to encodes back to that very quantum. */
  lemma EncodeDecodedQuantum(c0: char, c1: char, c2: char, c3: char, last: bool)
    requires DecodeQuantum(c0, c1, c2, c3, last).Some?
    ensures var bs := DecodeQuantum(c0, c1, c2, c3, last).value;
      1 <= |bs| <= 3 &&
      (|bs| < 3 ==> last) &&
      (|bs| == 3 ==> EncodeTriple(bs[0], bs[1], bs[2]) == [c0, c1, c2, c3]) &&
      (|bs| == 2 ==> EncodePair(bs[0], bs[1]) == [c0, c1, c2, c3]) &&
      (|bs| == 1 ==> EncodeSingle(bs[0]) == [c0, c1, c2, c3])
  {
    var v0, v1 := Value(c0).value, Value(c1).value;
    CharValue(c0);
    CharValue(c1);
    if last && c2 == Pad && c3 == Pad {
      JoinSingleSplit(v0, v1);
    } else if last && c3 == Pad {
      CharValue(c2);
      JoinPairSplit(v0, v1, Value(c2).value);
    } else {
      CharValue(c2);
      CharValue(c3);
      JoinTripleSplit(v0, v1, Value(c2).value, Value(c3).value);
    }
  }

  /** Text the strict decoder accepts is exactly the encoding of what it decodes to. */
  lemma {:induction false} EncodeDecode(t: string)
    requires Decode(t).Some?
    ensures Encode(Decode(t).value) == t
    decreases |t|
  {
    if |t| > 0 {
      var q := DecodeQuantum(t[0], t[1], t[2], t[3], |t| == 4).value;
      var rest := Decode(t[4..]).value;
      assert Decode(t).value == q + rest;
      EncodeDecodedQuantum(t[0], t[1], t[2], t[3], |t| == 4);
      EncodeDecode(t[4..]);
      FirstQuantum(t);
      if |t| == 4 {
        AppendEmpty(q);
      } else {
        EncodeConcat(q, rest);
      }
    }
  }

  lemma FirstQuantum(t: string)
    requires |t| >= 4
    ensures t == [t[0], t[1], t[2], t[3]] + t[4..]
  {
  }

  /** Encoding three bytes and then the rest is encoding the whole. */
  lemma EncodeConcat(q: bytes, rest: bytes)
    requires |q| == 3
    ensures Encode(q + rest) == EncodeTriple(q[0], q[1], q[2]) + Encode(rest)
  {
    var s := q + rest;
    assert s[0] == q[0] && s[1] == q[1] && s[2] == q[2] && s[3..] == rest;
  }

  /** Base64 text is ASCII, so the `.decode("utf8")` applied to it is the identity on characters. */
  lemma EncodeIsAscii(s: bytes)
    ensures forall i :: 0 <= i < |Encode(s)| ==> Encode(s)[i] as int < 128
  {
    EncodeAlphabet(s);
  }
}
