/**
 * UTF-8 as Rust uses it: the encoding of a `String` into bytes (`as_bytes`),
 * well-formedness (the byte sequences of Unicode's Table 3-7, which is what
 * `String::from_utf8` accepts), decoding, and the replacement rule of
 * `String::from_utf8_lossy`. Rust strings are Dafny `string`s (sequences of
 * Unicode scalar values) throughout the model.
 */
module Utf8 {
  import opened Bytes
  import opened Wrappers

  /** Number of bytes of a sequence led by `lead`; 0 for a byte that cannot lead one. */
  function SeqLen(lead: byte): (n: nat)
    ensures n <= 4
  {
    if lead < 0x80 then 1
    else if 0xC2 <= lead <= 0xDF then 2
    else if 0xE0 <= lead <= 0xEF then 3
    else if 0xF0 <= lead <= 0xF4 then 4
    else 0
  }

  /** Whether `b` may stand at position `k` (k >= 1) of a sequence led by `lead`. */
  predicate ContinuationOk(lead: byte, k: nat, b: byte)
  {
    if k == 1 && lead == 0xE0 then 0xA0 <= b <= 0xBF
    else if k == 1 && lead == 0xED then 0x80 <= b <= 0x9F
    else if k == 1 && lead == 0xF0 then 0x90 <= b <= 0xBF
    else if k == 1 && lead == 0xF4 then 0x80 <= b <= 0x8F
    else 0x80 <= b <= 0xBF
  }

  /** How many bytes from position `k` on continue the sequence `s[0]` leads, stopping at the first misfit. */
  function Fitting(s: seq<byte>, k: nat): (n: nat)
    requires 1 <= k <= |s|
    ensures k + n <= |s| && (k < SeqLen(s[0]) ==> k + n <= SeqLen(s[0]))
    ensures k >= SeqLen(s[0]) ==> n == 0
    decreases |s| - k
  {
    if k < SeqLen(s[0]) && k < |s| && ContinuationOk(s[0], k, s[k]) then 1 + Fitting(s, k + 1) else 0
  }

  /** Length of the well-formed character at the start of `s`, or 0 when none starts there. */
  function CharAt(s: seq<byte>): (n: nat)
    ensures n <= |s| && n <= 4
    ensures n > 0 ==> n == SeqLen(s[0])
  {
    if s == [] then 0
    else if SeqLen(s[0]) > 0 && 1 + Fitting(s, 1) == SeqLen(s[0]) then SeqLen(s[0])
    else 0
  }

  /** `std::str::from_utf8(s).is_ok()` */
  predicate Valid(s: seq<byte>)
    decreases |s|
  {
    s == [] || (CharAt(s) > 0 && Valid(s[CharAt(s)..]))
  }

  predicate IsAscii(s: seq<byte>)
  {
    forall i :: 0 <= i < |s| ==> s[i] < 0x80
  }

  /** The sequence led by `s[0]` is judged on its own bytes only: what follows it does not matter. */
  lemma {:induction false} FittingAppend(s: seq<byte>, t: seq<byte>, k: nat)
    requires 1 <= k <= |s| && SeqLen(s[0]) <= |s|
    ensures Fitting(s + t, k) == Fitting(s, k)
    decreases |s| - k
  {
    var u := s + t;
    assert u[0] == s[0];
    if k < SeqLen(s[0]) {
      assert u[k] == s[k];
      if ContinuationOk(s[0], k, s[k]) {
        FittingAppend(s, t, k + 1);
      }
    }
  }

  lemma {:induction false} FittingTake(u: seq<byte>, m: nat, k: nat)
    requires 1 <= k <= m <= |u| && SeqLen(u[0]) <= m
    ensures Fitting(u[..m], k) == Fitting(u, k)
    decreases m - k
  {
    var s := u[..m];
    assert s[0] == u[0];
    if k < SeqLen(u[0]) {
      assert s[k] == u[k];
      if ContinuationOk(u[0], k, u[k]) {
        FittingTake(u, m, k + 1);
      }
    }
  }

  lemma CharAtAppend(s: seq<byte>, t: seq<byte>)
    requires CharAt(s) == |s| > 0
    ensures CharAt(s + t) == |s|
    ensures (s + t)[|s|..] == t
  {
    FittingAppend(s, t, 1);
    assert (s + t)[0] == s[0];
  }

  /** The first character of `u`, cut out on its own, is still one well-formed character. */
  lemma CharAtTake(u: seq<byte>)
    requires CharAt(u) > 0
    ensures CharAt(u[..CharAt(u)]) == CharAt(u)
    ensures Valid(u[..CharAt(u)])
  {
    var n := CharAt(u);
    var c := u[..n];
    FittingTake(u, n, 1);
    assert c[0] == u[0];
    assert c[n..] == [];
  }

  lemma ValidCons(c: seq<byte>, rest: seq<byte>)
    requires CharAt(c) == |c| > 0 && Valid(rest)
    ensures Valid(c + rest)
  {
    CharAtAppend(c, rest);
  }

  lemma {:induction false} ValidAppend(s: seq<byte>, t: seq<byte>)
    requires Valid(s) && Valid(t)
    ensures Valid(s + t)
    decreases |s|
  {
    if s == [] {
      assert s + t == t;
    } else {
      var n := CharAt(s);
      CharAtTake(s);
      ValidAppend(s[n..], t);
      ValidCons(s[..n], s[n..] + t);
      SplitAppend(s, t, n);
    }
  }

  lemma AsciiValid(s: seq<byte>)
    requires IsAscii(s)
    ensures Valid(s)
    decreases |s|
  {
    if s != [] {
      assert CharAt(s) == 1;
      AsciiValid(s[1..]);
    }
  }

  /** The bytes of one character (`char::encode_utf8`): six value bits per continuation byte. */
  function EncodeChar(c: char): (r: seq<byte>)
    ensures 1 <= |r| <= 4
  {
    var v := c as int;
    var a := v / 0x40;
    var b := a / 0x40;
    if v < 0x80 then [v]
    else if v < 0x800 then [0xC0 + a, 0x80 + v % 0x40]
    else if v < 0x1_0000 then [0xE0 + b, 0x80 + a % 0x40, 0x80 + v % 0x40]
    else [0xF0 + b / 0x40, 0x80 + b % 0x40, 0x80 + a % 0x40, 0x80 + v % 0x40]
  }

  /** `String::as_bytes` */
  function Encode(s: string): (r: seq<byte>)
    ensures |r| >= |s|
  {
    if s == [] then [] else EncodeChar(s[0]) + Encode(s[1..])
  }

  /** The continuation bytes of the character at the head of `s` fit their positions. */
  lemma CharAtFits(s: seq<byte>)
    requires CharAt(s) > 0
    ensures forall k :: 1 <= k < CharAt(s) ==> ContinuationOk(s[0], k, s[k])
  {
    var n := CharAt(s);
    if n > 1 { assert Fitting(s, 1) > 0; }
    if n > 2 { assert Fitting(s, 1) > 1 && Fitting(s, 2) > 0; }
    if n > 3 { assert Fitting(s, 1) > 2 && Fitting(s, 2) > 1 && Fitting(s, 3) > 0; }
  }

  /** The scalar value the well-formed sequence at the head of `s` encodes. */
  function DecodeValue(s: seq<byte>): (v: int)
    requires CharAt(s) > 0
    ensures 0 <= v < 0xD800 || 0xE000 <= v < 0x11_0000
  {
    CharAtFits(s);
    var n := CharAt(s);
    var b0 := s[0] as int;
    if n == 1 then b0
    else
      var b1 := s[1] as int - 0x80;
      if n == 2 then (b0 - 0xC0) * 0x40 + b1
      else
        var b2 := s[2] as int - 0x80;
        if n == 3 then (b0 - 0xE0) * 0x1000 + b1 * 0x40 + b2
        else (b0 - 0xF0) * 0x4_0000 + b1 * 0x1000 + b2 * 0x40 + (s[3] as int - 0x80)
  }

  /** The character that the well-formed sequence at the head of `s` stands for. */
  function DecodeChar(s: seq<byte>): char
    requires CharAt(s) > 0
  {
    DecodeValue(s) as char
  }

  /** `String::from_utf8`: the text, or None when the bytes are not well-formed. */
  function Decode(b: seq<byte>): (r: Option<string>)
    decreases |b|
  {
    if b == [] then Some([])
    else if CharAt(b) == 0 then None
    else match Decode(b[CharAt(b)..])
      case None => None
      case Some(rest) => Some([DecodeChar(b)] + rest)
  }

  /** `from_utf8` accepts exactly the well-formed byte sequences. */
  lemma {:induction false} DecodeSomeIffValid(b: seq<byte>)
    ensures Decode(b).Some? <==> Valid(b)
    decreases |b|
  {
    if b != [] && CharAt(b) > 0 {
      DecodeSomeIffValid(b[CharAt(b)..]);
    }
  }

  /**
   * `String::from_utf8_lossy`: each well-formed character is kept, and each
   * maximal prefix of a well-formed sequence that cannot be completed (at
   * least one byte) becomes one U+FFFD.
   */
  function LossyDecode(b: seq<byte>): (r: string)
    decreases |b|
  {
    if b == [] then []
    else if CharAt(b) > 0 then [DecodeChar(b)] + LossyDecode(b[CharAt(b)..])
    else ['\U{FFFD}'] + LossyDecode(b[1 + Fitting(b, 1)..])
  }

  /** Splitting a two-byte scalar value into lead and continuation bytes, and back. */
  lemma Bits2(v: int)
    requires 0x80 <= v < 0x800
    ensures var b0, b1 := 0xC0 + v / 0x40, 0x80 + v % 0x40;
      0xC2 <= b0 <= 0xDF && 0x80 <= b1 <= 0xBF && (b0 - 0xC0) * 0x40 + (b1 - 0x80) == v
  {
  }

  lemma Bits3(v: int)
    requires 0x800 <= v < 0x1_0000 && !(0xD800 <= v < 0xE000)
    ensures var a := v / 0x40;
      var b0, b1, b2 := 0xE0 + a / 0x40, 0x80 + a % 0x40, 0x80 + v % 0x40;
      0xE0 <= b0 <= 0xEF && ContinuationOk(b0, 1, b1) && 0x80 <= b2 <= 0xBF
      && (b0 - 0xE0) * 0x1000 + (b1 - 0x80) * 0x40 + (b2 - 0x80) == v
  {
    var a := v / 0x40;
    assert v == a * 0x40 + v % 0x40;
    assert a == (a / 0x40) * 0x40 + a % 0x40;
  }

  lemma Bits4(v: int)
    requires 0x1_0000 <= v < 0x11_0000
    ensures var a := v / 0x40; var b := a / 0x40;
      var b0, b1, b2, b3 := 0xF0 + b / 0x40, 0x80 + b % 0x40, 0x80 + a % 0x40, 0x80 + v % 0x40;
      0xF0 <= b0 <= 0xF4 && ContinuationOk(b0, 1, b1) && 0x80 <= b2 <= 0xBF && 0x80 <= b3 <= 0xBF
      && (b0 - 0xF0) * 0x4_0000 + (b1 - 0x80) * 0x1000 + (b2 - 0x80) * 0x40 + (b3 - 0x80) == v
  {
    var a := v / 0x40;
    var b := a / 0x40;
    assert v == a * 0x40 + v % 0x40;
    assert a == b * 0x40 + a % 0x40;
    assert b == (b / 0x40) * 0x40 + b % 0x40;
  }

  lemma EncodeChar2(c: char)
    requires 0x80 <= c as int < 0x800
    ensures CharAt(EncodeChar(c)) == 2 && DecodeChar(EncodeChar(c)) == c
  {
    var e := EncodeChar(c);
    Bits2(c as int);
    assert Fitting(e, 2) == 0;
    assert Fitting(e, 1) == 1;
  }

  lemma EncodeChar3(c: char)
    requires 0x800 <= c as int < 0x1_0000
    ensures CharAt(EncodeChar(c)) == 3 && DecodeChar(EncodeChar(c)) == c
  {
    var e := EncodeChar(c);
    Bits3(c as int);
    assert Fitting(e, 3) == 0;
    assert Fitting(e, 2) == 1;
    assert Fitting(e, 1) == 2;
  }

  lemma EncodeChar4(c: char)
    requires 0x1_0000 <= c as int
    ensures CharAt(EncodeChar(c)) == 4 && DecodeChar(EncodeChar(c)) == c
  {
    var e := EncodeChar(c);
    Bits4(c as int);
    assert Fitting(e, 4) == 0;
    assert Fitting(e, 3) == 1;
    assert Fitting(e, 2) == 2;
    assert Fitting(e, 1) == 3;
  }

  lemma EncodeCharWellFormed(c: char)
    ensures CharAt(EncodeChar(c)) == |EncodeChar(c)|
    ensures DecodeChar(EncodeChar(c)) == c
  {
    var v := c as int;
    if v < 0x80 {
    } else if v < 0x800 {
      EncodeChar2(c);
    } else if v < 0x1_0000 {
      EncodeChar3(c);
    } else {
      EncodeChar4(c);
    }
  }

  /** The character at the head of `s + t` is the one at the head of `s`. */
  lemma DecodeCharAppend(s: seq<byte>, t: seq<byte>)
    requires CharAt(s) == |s| > 0
    ensures CharAt(s + t) == |s| && DecodeChar(s + t) == DecodeChar(s)
    ensures (s + t)[|s|..] == t
  {
    CharAtAppend(s, t);
    var u := s + t;
    assert forall k :: 0 <= k < |s| ==> u[k] == s[k];
  }

  lemma EncodeCharAt(c: char, t: seq<byte>)
    ensures CharAt(EncodeChar(c) + t) == |EncodeChar(c)|
    ensures DecodeChar(EncodeChar(c) + t) == c
    ensures (EncodeChar(c) + t)[|EncodeChar(c)|..] == t
  {
    EncodeCharWellFormed(c);
    DecodeCharAppend(EncodeChar(c), t);
  }

  /** Decoding the bytes of a string gives the string back. */
  lemma {:induction false} DecodeEncode(s: string)
    ensures Decode(Encode(s)) == Some(s)
  {
    if s != [] {
      EncodeCharAt(s[0], Encode(s[1..]));
      DecodeEncode(s[1..]);
      assert [s[0]] + s[1..] == s;
    }
  }

  lemma CharRoundTrip(b: seq<byte>)
    requires CharAt(b) > 0
    ensures EncodeChar(DecodeChar(b)) == b[..CharAt(b)]
  {
    var n := CharAt(b);
    if n == 1 {
    } else if n == 2 {
      CharRoundTrip2(b);
    } else if n == 3 {
      CharRoundTrip3(b);
    } else {
      CharRoundTrip4(b);
    }
  }

  /** Six low bits split off a value and put back. */
  lemma Split6(q: int, r: int)
    requires 0 <= r < 0x40
    ensures (q * 0x40 + r) / 0x40 == q && (q * 0x40 + r) % 0x40 == r
  {
  }

  lemma CharRoundTrip2(b: seq<byte>)
    requires CharAt(b) == 2
    ensures EncodeChar(DecodeChar(b)) == b[..2]
  {
    CharAtFits(b);
    var v := DecodeValue(b);
    assert DecodeChar(b) as int == v;
    Split6(b[0] as int - 0xC0, b[1] as int - 0x80);
    assert EncodeChar(DecodeChar(b)) == [b[0], b[1]];
  }

  lemma CharRoundTrip3(b: seq<byte>)
    requires CharAt(b) == 3
    ensures EncodeChar(DecodeChar(b)) == b[..3]
  {
    CharAtFits(b);
    var v := DecodeValue(b);
    assert DecodeChar(b) as int == v;
    var x0, x1, x2 := b[0] as int - 0xE0, b[1] as int - 0x80, b[2] as int - 0x80;
    assert v == (x0 * 0x40 + x1) * 0x40 + x2;
    Split6(x0 * 0x40 + x1, x2);
    Split6(x0, x1);
    assert EncodeChar(DecodeChar(b)) == [b[0], b[1], b[2]];
  }

  lemma CharRoundTrip4(b: seq<byte>)
    requires CharAt(b) == 4
    ensures EncodeChar(DecodeChar(b)) == b[..4]
  {
    CharAtFits(b);
    var v := DecodeValue(b);
    assert DecodeChar(b) as int == v;
    var x0, x1, x2, x3 := b[0] as int - 0xF0, b[1] as int - 0x80, b[2] as int - 0x80, b[3] as int - 0x80;
    assert v == ((x0 * 0x40 + x1) * 0x40 + x2) * 0x40 + x3;
    Split6((x0 * 0x40 + x1) * 0x40 + x2, x3);
    Split6(x0 * 0x40 + x1, x2);
    Split6(x0, x1);
    assert EncodeChar(DecodeChar(b)) == [b[0], b[1], b[2], b[3]];
  }

  /** Well-formed bytes are exactly the encoding of what they decode to. */
  lemma {:induction false} EncodeDecode(b: seq<byte>)
    requires Valid(b)
    ensures Decode(b).Some? && Encode(Decode(b).value) == b
    decreases |b|
  {
    DecodeSomeIffValid(b);
    if b != [] {
      var n := CharAt(b);
      DecodeCons(b);
      var c, rest := DecodeChar(b), Decode(b[n..]).value;
      calc {
        Encode(Decode(b).value);
        Encode([c] + rest);
        { EncodeCons(c, rest); }
        EncodeChar(c) + Encode(rest);
        { EncodeDecode(b[n..]); CharRoundTrip(b); }
        b[..n] + b[n..];
        { TakeDrop(b, n); }
        b;
      }
    }
  }

  /** Decoding well-formed bytes reads the first character, then the rest. */
  lemma DecodeCons(b: seq<byte>)
    requires Valid(b) && b != []
    ensures CharAt(b) > 0 && Valid(b[CharAt(b)..]) && Decode(b[CharAt(b)..]).Some?
    ensures Decode(b).value == [DecodeChar(b)] + Decode(b[CharAt(b)..]).value
  {
    DecodeSomeIffValid(b[CharAt(b)..]);
  }

  lemma EncodeCons(c: char, rest: string)
    ensures Encode([c] + rest) == EncodeChar(c) + Encode(rest)
  {
    assert ([c] + rest)[1..] == rest;
  }

  lemma EncodeValid(s: string)
    ensures Valid(Encode(s))
  {
    DecodeEncode(s);
    DecodeSomeIffValid(Encode(s));
  }

  /** On well-formed input the lossy conversion is the strict one. */
  lemma {:induction false} LossyOfValid(b: seq<byte>)
    requires Valid(b)
    ensures Decode(b).Some? && LossyDecode(b) == Decode(b).value
    decreases |b|
  {
    DecodeSomeIffValid(b);
    if b != [] {
      LossyOfValid(b[CharAt(b)..]);
    }
  }
}
