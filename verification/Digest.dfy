/** The textual form of digests in the thread index (`encode_digest`, `decode_digest` in `index.rs`). */
module Digests {
  import opened Basics

  type Byte = b: int | 0 <= b < 256

  const DigestBytes: nat := 32

  function HexDigit(n: nat): (c: char)
    requires n < 16
  {
    if n < 10 then '0' + n as char else 'a' + (n - 10) as char
  }

  /** `char::to_digit(16)`: both cases are accepted. */
  function DigitValue(c: char): (v: Option<nat>)
    ensures v.Some? ==> v.value < 16
  {
    if '0' <= c <= '9' then Some((c - '0') as nat)
    else if 'a' <= c <= 'f' then Some((c - 'a') as nat + 10)
    else if 'A' <= c <= 'F' then Some((c - 'A') as nat + 10)
    else None
  }

  function EncodeByte(b: Byte): string {
    [HexDigit(b / 16), HexDigit(b % 16)]
  }

  function EncodeDigest(digest: seq<Byte>): string {
    if digest == [] then "" else EncodeDigest(digest[..|digest| - 1]) + EncodeByte(digest[|digest| - 1])
  }

  /** The digits are the hexadecimal ones, in their order; `f` has the value 15 in either case. */
  lemma DigitsAre(n: nat)
    requires n < 16
    ensures HexDigit(n) == "0123456789abcdef"[n]
    ensures DigitValue(HexDigit(n)) == Some(n) == DigitValue("0123456789ABCDEF"[n])
  {
  }

  /** `u8::from_str_radix(chunk, 16)` on two characters: a leading plus sign is accepted. */
  function DecodeByte(hi: char, lo: char): Option<Byte> {
    if DigitValue(lo).None? then None
    else if hi == '+' then Some(DigitValue(lo).value)
    else if DigitValue(hi).None? then None
    else Some(DigitValue(hi).value * 16 + DigitValue(lo).value)
  }

  function DecodeBytes(value: string): Option<seq<Byte>>
    requires |value| % 2 == 0
  {
    if value == "" then Some([])
    else
      var init := DecodeBytes(value[..|value| - 2]);
      var last := DecodeByte(value[|value| - 2], value[|value| - 1]);
      if init.None? || last.None? then None else Some(init.value + [last.value])
  }

  /** `decode_digest` */
  method DecodeDigest(value: string) returns (digest: Option<seq<Byte>>)
    ensures digest == if |value| == 2 * DigestBytes then DecodeBytes(value) else None
  {
    if |value| != 2 * DigestBytes { return None; }
    var bytes := [];
    for index := 0 to DigestBytes
      invariant DecodeBytes(value[..2 * index]) == Some(bytes)
    {
      var next := value[..2 * index + 2];
      assert next[..|next| - 2] == value[..2 * index];
      var byte := DecodeByte(value[2 * index], value[2 * index + 1]);
      if byte.None? {
        FailsFrom(value, index + 1);
        return None;
      }
      bytes := bytes + [byte.value];
    }
    assert value[..2 * DigestBytes] == value;
    digest := Some(bytes);
  }

  lemma {:induction false} FailsFrom(value: string, n: nat)
    requires |value| % 2 == 0 && 2 * n <= |value| && DecodeBytes(value[..2 * n]).None?
    ensures DecodeBytes(value).None?
  {
    if 2 * n == |value| {
      assert value[..2 * n] == value;
    } else {
      var init := value[..|value| - 2];
      assert init[..2 * n] == value[..2 * n];
      FailsFrom(init, n);
    }
  }

  lemma {:induction false} EncodeLength(digest: seq<Byte>)
    ensures |EncodeDigest(digest)| == 2 * |digest|
  {
    if digest == [] {
    } else {
      EncodeLength(digest[..|digest| - 1]);
    }
  }

  /** Decoding undoes encoding. */
  lemma {:induction false} DecodeEncode(digest: seq<Byte>)
    ensures |EncodeDigest(digest)| == 2 * |digest|
    ensures DecodeBytes(EncodeDigest(digest)) == Some(digest)
  {
    hide EncodeDigest, EncodeByte, DecodeByte, DecodeBytes, HexDigit;
    EncodeLength(digest);
    if digest == [] {
      NothingEncoded();
    } else {
      var init, last := digest[..|digest| - 1], digest[|digest| - 1];
      DecodeEncode(init);
      assert digest == init + [last];
      EncodeLast(init, last);
      DecodeEncodeByte(last);
      DecodeLast(EncodeDigest(init), EncodeByte(last));
    }
  }

  lemma NothingEncoded()
    ensures EncodeDigest([]) == "" && DecodeBytes("") == Some([])
  {
  }

  lemma DecodeEncodeByte(b: Byte)
    ensures |EncodeByte(b)| == 2 && DecodeByte(EncodeByte(b)[0], EncodeByte(b)[1]) == Some(b)
  {
  }

  lemma DecodeLast(value: string, pair: string)
    requires |value| % 2 == 0 && |pair| == 2 && DecodeBytes(value).Some? && DecodeByte(pair[0], pair[1]).Some?
    ensures DecodeBytes(value + pair) == Some(DecodeBytes(value).value + [DecodeByte(pair[0], pair[1]).value])
  {
    hide DecodeByte;
    var all := value + pair;
    assert all[..|all| - 2] == value && all[|all| - 2] == pair[0] && all[|all| - 1] == pair[1];
  }

  predicate LowerHex(c: char) {
    '0' <= c <= '9' || 'a' <= c <= 'f'
  }

  /** A digit is printed as it was read exactly when it is lower case. */
  lemma DigitIff(c: char)
    requires DigitValue(c).Some?
    ensures HexDigit(DigitValue(c).value) == c <==> LowerHex(c)
  {
  }

  lemma EncodeDecodeByteIff(hi: char, lo: char)
    requires DecodeByte(hi, lo).Some?
    ensures EncodeByte(DecodeByte(hi, lo).value) == [hi, lo] <==> LowerHex(hi) && LowerHex(lo)
  {
    hide HexDigit, LowerHex, DigitValue;
    var b := DecodeByte(hi, lo).value;
    var high := if hi == '+' then 0 else DigitValue(hi).value;
    assert b == 16 * high + DigitValue(lo).value;
    assert b / 16 == high && b % 16 == DigitValue(lo).value;
    assert EncodeByte(b)[0] == HexDigit(high) && EncodeByte(b)[1] == HexDigit(DigitValue(lo).value);
    DigitIff(lo);
    if hi == '+' { PlusIsNoDigit(); } else { DigitIff(hi); }
  }

  lemma PlusIsNoDigit()
    ensures HexDigit(0) != '+' && !LowerHex('+')
  {
  }

  predicate AllLower(value: string) {
    forall c <- value :: LowerHex(c)
  }

  lemma AllLowerPair(init: string, hi: char, lo: char)
    ensures AllLower(init + [hi, lo]) <==> AllLower(init) && LowerHex(hi) && LowerHex(lo)
  {
    hide LowerHex;
    var all := init + [hi, lo];
    assert all[|init|] == hi && all[|init| + 1] == lo;
    assert forall i :: 0 <= i < |init| ==> all[i] == init[i];
  }

  lemma EncodeLast(digest: seq<Byte>, b: Byte)
    ensures EncodeDigest(digest + [b]) == EncodeDigest(digest) + EncodeByte(b)
  {
    assert (digest + [b])[..|digest|] == digest;
  }

  /** Encoding undoes decoding exactly on lower-case text: other spellings decode too. */
  lemma {:induction false} EncodeDecodeIff(value: string)
    requires |value| % 2 == 0 && DecodeBytes(value).Some?
    ensures EncodeDigest(DecodeBytes(value).value) == value <==> AllLower(value)
  {
    hide EncodeByte, DecodeByte, LowerHex, AllLower, DecodeBytes, EncodeDigest;
    if value == "" {
      NothingEncoded();
      NothingIsLower();
    } else {
      var init, hi, lo := value[..|value| - 2], value[|value| - 2], value[|value| - 1];
      assert value == init + [hi, lo];
      DecodedLast(value);
      EncodeDecodeIff(init);
      EncodeDecodeByteIff(hi, lo);
      var bytes, b := DecodeBytes(init).value, DecodeByte(hi, lo).value;
      EncodeLast(bytes, b);
      AllLowerPair(init, hi, lo);
      EncodeLength(bytes);
      DecodedLength(init);
      AppendEqual(EncodeDigest(bytes), EncodeByte(b), init, [hi, lo]);
    }
  }

  lemma NothingIsLower()
    ensures AllLower("")
  {
  }

  lemma DecodedLast(value: string)
    requires |value| % 2 == 0 && value != "" && DecodeBytes(value).Some?
    ensures var init, b := DecodeBytes(value[..|value| - 2]), DecodeByte(value[|value| - 2], value[|value| - 1]);
      init.Some? && b.Some? && DecodeBytes(value).value == init.value + [b.value]
  {
    hide DecodeByte;
  }

  lemma AppendEqual(a: string, b: string, c: string, d: string)
    requires |a| == |c|
    ensures a + b == c + d <==> a == c && b == d
  {
    if a + b == c + d {
      assert (a + b)[..|a|] == a && (a + b)[|a|..] == b;
      assert (c + d)[..|c|] == c && (c + d)[|c|..] == d;
    }
  }

  lemma {:induction false} DecodedLength(value: string)
    requires |value| % 2 == 0 && DecodeBytes(value).Some?
    ensures 2 * |DecodeBytes(value).value| == |value|
  {
    if value == "" {
    } else {
      DecodedLength(value[..|value| - 2]);
    }
  }
}
