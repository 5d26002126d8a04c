/**
 * UTF-8 as defined in section 3 of RFC 3629: the decoding that
 * `string.force_encoding("utf-8").unpack("U*")` performs on the bytes of a name.
 */
module Utf8 {
  import opened Wrappers

  type byte = b: int | 0 <= b < 0x100

  /** A Unicode scalar value: a code point that is not a surrogate. */
  predicate IsScalar(c: int) {
    0 <= c < 0xD800 || 0xE000 <= c <= 0x10FFFF
  }

  predicate AllScalars(cs: seq<int>) {
    forall i :: 0 <= i < |cs| ==> IsScalar(cs[i])
  }

  predicate IsContinuation(b: byte) {
    0x80 <= b < 0xC0
  }

  /** The one to four bytes that encode a scalar value. */
  function EncodeScalar(c: int): (bs: seq<byte>)
    requires IsScalar(c)
    ensures 1 <= |bs| <= 4
  {
    if c < 0x80 then [c]
    else if c < 0x800 then [0xC0 + c / 64, 0x80 + c % 64]
    else if c < 0x10000 then [0xE0 + c / 4096, 0x80 + (c / 64) % 64, 0x80 + c % 64]
    else [0xF0 + c / 262144, 0x80 + (c / 4096) % 64, 0x80 + (c / 64) % 64, 0x80 + c % 64]
  }

  /** The encoding of a sequence of scalar values: the reference that decoding inverts. */
  function Encode(cs: seq<int>): seq<byte>
    requires AllScalars(cs)
  {
    if cs == [] then [] else EncodeScalar(cs[0]) + Encode(cs[1..])
  }

  /**
   * Reads one character at the front of `bs`: its scalar value and its length in bytes,
   * or None when the front is not a well-formed sequence (a stray continuation byte,
   * C0, C1, F5..FF, a truncated sequence, an overlong form, a surrogate, or a value
   * above U+10FFFF).
   */
  function DecodeFirst(bs: seq<byte>): (r: Option<(int, nat)>)
    requires |bs| > 0
    ensures r.Some? ==> 1 <= r.value.1 <= |bs| && r.value.1 <= 4 && IsScalar(r.value.0)
  {
    var b0 := bs[0];
    if b0 < 0x80 then Some((b0, 1))
    else if b0 < 0xC2 then None
    else if b0 < 0xE0 then
      if |bs| < 2 || !IsContinuation(bs[1]) then None
      else Some(((b0 - 0xC0) * 64 + (bs[1] - 0x80), 2))
    else if b0 < 0xF0 then
      if |bs| < 3 || !IsContinuation(bs[1]) || !IsContinuation(bs[2]) then None
      else
        var c := (b0 - 0xE0) * 4096 + (bs[1] - 0x80) * 64 + (bs[2] - 0x80);
        if c < 0x800 || 0xD800 <= c < 0xE000 then None else Some((c, 3))
    else if b0 < 0xF5 then
      if |bs| < 4 || !IsContinuation(bs[1]) || !IsContinuation(bs[2]) || !IsContinuation(bs[3]) then None
      else
        var c := (b0 - 0xF0) * 262144 + (bs[1] - 0x80) * 4096 + (bs[2] - 0x80) * 64 + (bs[3] - 0x80);
        if c < 0x10000 || 0x10FFFF < c then None else Some((c, 4))
    else None
  }

  /** `unpack("U*")`: the scalar values of `bs` in order, or None when `bs` is malformed. */
  function Decode(bs: seq<byte>): (r: Option<seq<int>>)
    ensures r.Some? ==> AllScalars(r.value)
    ensures r.Some? ==> |r.value| <= |bs|
    decreases |bs|
  {
    if bs == [] then Some([])
    else
      match DecodeFirst(bs)
      case None => None
      case Some((c, n)) =>
        match Decode(bs[n..])
        case None => None
        case Some(rest) => Some([c] + rest)
  }

  lemma DecodeFirstOfEncoding(c: int, rest: seq<byte>)
    requires IsScalar(c)
    ensures DecodeFirst(EncodeScalar(c) + rest) == Some((c, |EncodeScalar(c)|))
  {
    if c < 0x80 {
    } else if c < 0x800 {
      DecodeFirstOfTwo(c, rest);
    } else if c < 0x10000 {
      DecodeFirstOfThree(c, rest);
    } else {
      DecodeFirstOfFour(c, rest);
    }
  }

  lemma DecodeFirstOfTwo(c: int, rest: seq<byte>)
    requires 0x80 <= c < 0x800
    ensures DecodeFirst([0xC0 + c / 64, 0x80 + c % 64] + rest) == Some((c, 2))
  {
    var bs: seq<byte> := [0xC0 + c / 64, 0x80 + c % 64] + rest;
    assert bs[0] == 0xC0 + c / 64 && bs[1] == 0x80 + c % 64;
    assert 0xC2 <= bs[0] < 0xE0 && IsContinuation(bs[1]);
  }

  lemma DecodeFirstOfThree(c: int, rest: seq<byte>)
    requires 0x800 <= c < 0x10000 && !(0xD800 <= c < 0xE000)
    ensures DecodeFirst([0xE0 + c / 4096, 0x80 + (c / 64) % 64, 0x80 + c % 64] + rest) == Some((c, 3))
  {
    var bs: seq<byte> := [0xE0 + c / 4096, 0x80 + (c / 64) % 64, 0x80 + c % 64] + rest;
    assert bs[0] == 0xE0 + c / 4096 && bs[1] == 0x80 + (c / 64) % 64 && bs[2] == 0x80 + c % 64;
    assert 0xE0 <= bs[0] < 0xF0 && IsContinuation(bs[1]) && IsContinuation(bs[2]);
    assert c == (c / 4096) * 4096 + ((c / 64) % 64) * 64 + c % 64;
  }

  lemma DecodeFirstOfFour(c: int, rest: seq<byte>)
    requires 0x10000 <= c <= 0x10FFFF
    ensures DecodeFirst([0xF0 + c / 262144, 0x80 + (c / 4096) % 64, 0x80 + (c / 64) % 64, 0x80 + c % 64] + rest)
      == Some((c, 4))
  {
    var bs: seq<byte> := [0xF0 + c / 262144, 0x80 + (c / 4096) % 64, 0x80 + (c / 64) % 64, 0x80 + c % 64] + rest;
    assert bs[0] == 0xF0 + c / 262144 && bs[1] == 0x80 + (c / 4096) % 64;
    assert bs[2] == 0x80 + (c / 64) % 64 && bs[3] == 0x80 + c % 64;
    assert 0xF0 <= bs[0] < 0xF5 && IsContinuation(bs[1]) && IsContinuation(bs[2]) && IsContinuation(bs[3]);
    assert c == (c / 262144) * 262144 + ((c / 4096) % 64) * 4096 + ((c / 64) % 64) * 64 + c % 64;
  }

  lemma DivModBase64(q: int, r: int)
    requires 0 <= r < 64
    ensures (q * 64 + r) / 64 == q && (q * 64 + r) % 64 == r
  {
  }

  /** Base-64 digits x, y, z read back from x * 4096 + y * 64 + z. */
  lemma ThreeDigits(x: int, y: int, z: int)
    requires 0 <= x && 0 <= y < 64 && 0 <= z < 64
    ensures var c := x * 4096 + y * 64 + z;
      c / 4096 == x && (c / 64) % 64 == y && c % 64 == z
  {
    var c := x * 4096 + y * 64 + z;
    assert c == (x * 64 + y) * 64 + z;
    DivModBase64(x * 64 + y, z);
    DivModBase64(x, y);
    assert c / 4096 == (c / 64) / 64;
  }

  lemma FourDigits(w: int, x: int, y: int, z: int)
    requires 0 <= w && 0 <= x < 64 && 0 <= y < 64 && 0 <= z < 64
    ensures var c := w * 262144 + x * 4096 + y * 64 + z;
      c / 262144 == w && (c / 4096) % 64 == x && (c / 64) % 64 == y && c % 64 == z
  {
    var c := w * 262144 + x * 4096 + y * 64 + z;
    assert c == (w * 64 + x) * 4096 + y * 64 + z;
    ThreeDigits(w * 64 + x, y, z);
    DivModBase64(w, x);
    assert c / 262144 == (c / 4096) / 64;
  }

  lemma EncodingOfDecodeFirst(bs: seq<byte>)
    requires |bs| > 0 && DecodeFirst(bs).Some?
    ensures EncodeScalar(DecodeFirst(bs).value.0) == bs[..DecodeFirst(bs).value.1]
  {
    var (c, n) := DecodeFirst(bs).value;
    if n == 2 {
      DivModBase64(bs[0] - 0xC0, bs[1] - 0x80);
    } else if n == 3 {
      ThreeDigits(bs[0] - 0xE0, bs[1] - 0x80, bs[2] - 0x80);
    } else if n == 4 {
      FourDigits(bs[0] - 0xF0, bs[1] - 0x80, bs[2] - 0x80, bs[3] - 0x80);
    }
  }

  /** Decoding inverts encoding: every sequence of scalar values comes back unchanged. */
  lemma {:induction false} DecodeEncode(cs: seq<int>)
    requires AllScalars(cs)
    ensures Decode(Encode(cs)) == Some(cs)
  {
    if cs != [] {
      var head := EncodeScalar(cs[0]);
      var tail := Encode(cs[1..]);
      DecodeFirstOfEncoding(cs[0], tail);
      assert Encode(cs) == head + tail;
      assert (head + tail)[|head|..] == tail;
      DecodeEncode(cs[1..]);
      assert [cs[0]] + cs[1..] == cs;
    }
  }

  /** Encoding inverts decoding: an accepted byte string is the encoding of what it decodes to. */
  lemma {:induction false} EncodeDecode(bs: seq<byte>)
    requires Decode(bs).Some?
    ensures Encode(Decode(bs).value) == bs
    decreases |bs|
  {
    if bs != [] {
      var c, n := DecodeStep(bs);
      var rest := Decode(bs[n..]).value;
      EncodeDecode(bs[n..]);
      EncodeCons(c, rest);
      assert bs == bs[..n] + bs[n..];
    }
  }

  /**
   * An accepted non-empty string is the encoding of its first character, `n` bytes long,
   * followed by the accepted rest.
   */
  lemma DecodeStep(bs: seq<byte>) returns (c: int, n: nat)
    requires bs != [] && Decode(bs).Some?
    ensures 1 <= n <= |bs| && IsScalar(c) && EncodeScalar(c) == bs[..n]
    ensures Decode(bs[n..]).Some? && Decode(bs).value == [c] + Decode(bs[n..]).value
  {
    c, n := DecodeFirst(bs).value.0, DecodeFirst(bs).value.1;
    EncodingOfDecodeFirst(bs);
  }

  lemma EncodeCons(c: int, rest: seq<int>)
    requires IsScalar(c) && AllScalars(rest)
    ensures Encode([c] + rest) == EncodeScalar(c) + Encode(rest)
  {
    assert ([c] + rest)[1..] == rest;
  }

  /** Decoding fails exactly on the byte strings that encode no sequence of scalar values. */
  lemma DecodeFailsIffNotEncoding(bs: seq<byte>)
    ensures Decode(bs).None? <==> forall cs :: AllScalars(cs) ==> Encode(cs) != bs
  {
    if Decode(bs).Some? {
      EncodeDecode(bs);
    } else {
      forall cs | AllScalars(cs) ensures Encode(cs) != bs {
        DecodeEncode(cs);
      }
    }
  }

  /** A lone C0 byte is malformed. */
  lemma LoneC0IsRejected()
    ensures Decode([0xC0]) == None
  {
  }

  /** The three bytes E5 90 89 are the character U+5409. */
  lemma KichiDecodes()
    ensures Decode([0xE5, 0x90, 0x89]) == Some([0x5409])
  {
    var bs: seq<byte> := [0xE5, 0x90, 0x89];
    assert DecodeFirst(bs) == Some((0x5409, 3));
    assert bs[3..] == [];
    assert Decode(bs[3..]) == Some([]);
    assert Decode(bs) == Some([0x5409] + []);
    assert [0x5409] + [] == [0x5409];
  }
}
