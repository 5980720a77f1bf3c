/**
 * A reference UTF-8 decoder following the well-formed byte sequences of
 * section 4 of RFC 3629. It stands for the validating decoder the parser
 * calls (`from_utf8`, with the `valid_up_to` of its error), which is a
 * foreign library. An encoder is its round-trip partner.
 */
module Utf8Decode {
  import opened Common

  predicate IsContinuation(b: u8)
  {
    0x80 <= b <= 0xBF
  }

  /** The second byte allowed after a three-byte lead (excludes overlongs and surrogates). */
  predicate SecondOfThree(b0: u8, b1: u8)
  {
    if b0 == 0xE0 then 0xA0 <= b1 <= 0xBF
    else if b0 == 0xED then 0x80 <= b1 <= 0x9F
    else IsContinuation(b1)
  }

  /** The second byte allowed after a four-byte lead (excludes overlongs and values past U+10FFFF). */
  predicate SecondOfFour(b0: u8, b1: u8)
  {
    if b0 == 0xF0 then 0x90 <= b1 <= 0xBF
    else if b0 == 0xF4 then 0x80 <= b1 <= 0x8F
    else IsContinuation(b1)
  }

  /** The length of the well-formed sequence `s` starts with, if it starts with one. */
  function SequenceLength(s: seq<u8>): (n: Option<nat>)
    ensures n.Some? ==> 1 <= n.value <= 4 && n.value <= |s|
  {
    if |s| == 0 then None
    else if s[0] <= 0x7F then Some(1)
    else if 0xC2 <= s[0] <= 0xDF then
      if |s| >= 2 && IsContinuation(s[1]) then Some(2) else None
    else if 0xE0 <= s[0] <= 0xEF then
      if |s| >= 3 && SecondOfThree(s[0], s[1]) && IsContinuation(s[2]) then Some(3) else None
    else if 0xF0 <= s[0] <= 0xF4 then
      if |s| >= 4 && SecondOfFour(s[0], s[1]) && IsContinuation(s[2]) && IsContinuation(s[3]) then Some(4) else None
    else None
  }

  /** The scalar value encoded by the well-formed sequence at the start of `s`. */
  function FirstScalar(s: seq<u8>): char
    requires SequenceLength(s).Some?
  {
    var n := SequenceLength(s).value;
    var b0: int := s[0];
    if n == 1 then b0 as char
    else
      var b1: int := s[1] - 0x80;
      if n == 2 then ((b0 - 0xC0) * 0x40 + b1) as char
      else
        var b2: int := s[2] - 0x80;
        if n == 3 then ((b0 - 0xE0) * 0x1000 + b1 * 0x40 + b2) as char
        else
          var b3: int := s[3] - 0x80;
          ((b0 - 0xF0) * 0x40000 + b1 * 0x1000 + b2 * 0x40 + b3) as char
  }

  /**
   * Decodes the longest well-formed prefix of `s`: its scalar values and
   * the number of bytes it spans (`valid_up_to`).
   */
  function DecodePrefix(s: seq<u8>): (r: (seq<char>, nat))
    ensures r.1 <= |s|
    ensures |r.0| <= r.1
    ensures r.1 == 0 <==> |r.0| == 0
    decreases |s|
  {
    match SequenceLength(s)
    case None => ([], 0)
    case Some(n) =>
      var rest := DecodePrefix(s[n..]);
      ([FirstScalar(s)] + rest.0, n + rest.1)
  }

  datatype Utf8Result = Ok(chars: seq<char>) | Err(validUpTo: nat)

  /** `from_utf8`: the scalar values of `s`, or the length of its longest valid prefix. */
  function FromUtf8(s: seq<u8>): (r: Utf8Result)
    ensures r.Err? ==> r.validUpTo < |s|
  {
    var d := DecodePrefix(s);
    if d.1 == |s| then Ok(d.0) else Err(d.1)
  }

  /** The longest valid prefix is itself valid and decodes to the same scalar values. */
  lemma {:induction false} ValidPrefixIsValid(s: seq<u8>)
    ensures DecodePrefix(s[..DecodePrefix(s).1]) == DecodePrefix(s)
    decreases |s|
  {
    match SequenceLength(s)
    case None =>
    case Some(n) =>
      var k := DecodePrefix(s).1;
      var t := s[..k];
      assert t[..n] == s[..n];
      SequenceLengthDependsOnPrefix(s, t, n);
      assert t[n..] == s[n..][..DecodePrefix(s[n..]).1];
      ValidPrefixIsValid(s[n..]);
  }

  /** A well-formed sequence is recognised by its own bytes, whatever follows. */
  lemma SequenceLengthDependsOnPrefix(s: seq<u8>, t: seq<u8>, n: nat)
    requires SequenceLength(s) == Some(n)
    requires n <= |t| && t[..n] == s[..n]
    ensures SequenceLength(t) == Some(n)
    ensures FirstScalar(t) == FirstScalar(s)
  {
    assert t[0] == s[..n][0];
    if n >= 2 { assert t[1] == s[..n][1]; }
    if n >= 3 { assert t[2] == s[..n][2]; }
    if n >= 4 { assert t[3] == s[..n][3]; }
  }

  /** One step of the decoder: a well-formed first sequence, then the rest. */
  lemma DecodeStep(s: seq<u8>, n: nat)
    requires SequenceLength(s) == Some(n)
    ensures DecodePrefix(s) == ([FirstScalar(s)] + DecodePrefix(s[n..]).0, n + DecodePrefix(s[n..]).1)
  {
  }

  /** The first step of decoding `a + b` when `a` starts with a well-formed sequence. */
  lemma DecodeAppendStep(a: seq<u8>, b: seq<u8>, n: nat)
    requires SequenceLength(a) == Some(n)
    ensures DecodePrefix(a + b).0 == [FirstScalar(a)] + DecodePrefix(a[n..] + b).0
    ensures DecodePrefix(a + b).1 == n + DecodePrefix(a[n..] + b).1
  {
    var ab := a + b;
    assert ab[..n] == a[..n];
    SequenceLengthDependsOnPrefix(a, ab, n);
    assert ab[n..] == a[n..] + b;
    DecodeStep(ab, n);
  }

  /** The inductive step of `DecodeAppend`. */
  lemma DecodeAppendCons(a: seq<u8>, b: seq<u8>, n: nat)
    requires SequenceLength(a) == Some(n)
    requires DecodePrefix(a[n..] + b).0 == DecodePrefix(a[n..]).0 + DecodePrefix(b).0
    requires DecodePrefix(a[n..] + b).1 == |a[n..]| + DecodePrefix(b).1
    ensures DecodePrefix(a + b).0 == DecodePrefix(a).0 + DecodePrefix(b).0
    ensures DecodePrefix(a + b).1 == |a| + DecodePrefix(b).1
  {
    var c := FirstScalar(a);
    var t := DecodePrefix(a[n..]).0;
    var u := DecodePrefix(b).0;
    DecodeStep(a, n);
    DecodeAppendStep(a, b, n);
    ConsAssociative(c, t, u);
  }

  lemma ConsAssociative(c: char, t: seq<char>, u: seq<char>)
    ensures [c] + (t + u) == ([c] + t) + u
  {
  }

  /** Decoding a valid text followed by more bytes decodes the two parts one after the other. */
  lemma {:induction false} DecodeAppend(a: seq<u8>, b: seq<u8>)
    requires DecodePrefix(a).1 == |a|
    ensures DecodePrefix(a + b).0 == DecodePrefix(a).0 + DecodePrefix(b).0
    ensures DecodePrefix(a + b).1 == |a| + DecodePrefix(b).1
    decreases |a|
  {
    if |a| == 0 {
      assert a + b == b;
    } else {
      var n := SequenceLength(a).value;
      DecodeStep(a, n);
      DecodeAppend(a[n..], b);
      DecodeAppendCons(a, b, n);
    }
  }

  /** Every 7-bit byte is a one-byte sequence standing for itself. */
  lemma AsciiDecodes(s: seq<u8>)
    requires forall i :: 0 <= i < |s| ==> s[i] < 0x80
    ensures FromUtf8(s) == Ok(seq(|s|, i requires 0 <= i < |s| => s[i] as char))
    decreases |s|
  {
    if |s| > 0 {
      AsciiDecodes(s[1..]);
    }
  }

  /** The UTF-8 encoding of a scalar value: its bits in groups of six, high groups first. */
  function Encode(c: char): (bytes: seq<u8>)
    ensures 1 <= |bytes| <= 4
  {
    var v := c as int;
    if v < 0x80 then [v]
    else if v < 0x800 then [0xC0 + v / 0x40, 0x80 + v % 0x40]
    else if v < 0x10000 then [0xE0 + v / 0x40 / 0x40, 0x80 + v / 0x40 % 0x40, 0x80 + v % 0x40]
    else [0xF0 + v / 0x40 / 0x40 / 0x40, 0x80 + v / 0x40 / 0x40 % 0x40, 0x80 + v / 0x40 % 0x40, 0x80 + v % 0x40]
  }

  /** The encoding of a scalar value is one well-formed sequence that decodes back to it. */
  lemma EncodeDecodes(c: char, rest: seq<u8>)
    ensures SequenceLength(Encode(c) + rest) == Some(|Encode(c)|)
    ensures FirstScalar(Encode(c) + rest) == c
  {
    var v := c as int;
    if v < 0x800 {
      assert (Encode(c) + rest)[..|Encode(c)|] == Encode(c);
    } else if v < 0x10000 {
      EncodesThree(c, rest);
    } else {
      EncodesFour(c, rest);
    }
  }

  lemma EncodesThree(c: char, rest: seq<u8>)
    requires 0x800 <= c as int < 0x10000
    ensures SequenceLength(Encode(c) + rest) == Some(3)
    ensures FirstScalar(Encode(c) + rest) == c
  {
    var v := c as int;
    var a := v / 0x40;
    var b := a / 0x40;
    assert v == a * 0x40 + v % 0x40;
    assert a == b * 0x40 + a % 0x40;
    var s := Encode(c) + rest;
    assert s[0] == 0xE0 + b && s[1] == 0x80 + a % 0x40 && s[2] == 0x80 + v % 0x40;
  }

  lemma EncodesFour(c: char, rest: seq<u8>)
    requires 0x10000 <= c as int
    ensures SequenceLength(Encode(c) + rest) == Some(4)
    ensures FirstScalar(Encode(c) + rest) == c
  {
    var v := c as int;
    var a := v / 0x40;
    var b := a / 0x40;
    var d := b / 0x40;
    assert v == a * 0x40 + v % 0x40;
    assert a == b * 0x40 + a % 0x40;
    assert b == d * 0x40 + b % 0x40;
    var s := Encode(c) + rest;
    assert s[0] == 0xF0 + d && s[1] == 0x80 + b % 0x40 && s[2] == 0x80 + a % 0x40 && s[3] == 0x80 + v % 0x40;
  }

  function EncodeAll(cs: seq<char>): seq<u8>
  {
    if |cs| == 0 then [] else Encode(cs[0]) + EncodeAll(cs[1..])
  }

  /** Decoding the encoding of any text gives the text back. */
  lemma {:induction false} EncodeAllRoundTrip(cs: seq<char>)
    ensures FromUtf8(EncodeAll(cs)) == Ok(cs)
    decreases |cs|
  {
    if |cs| > 0 {
      var e := Encode(cs[0]);
      EncodeDecodes(cs[0], EncodeAll(cs[1..]));
      assert (e + EncodeAll(cs[1..]))[|e|..] == EncodeAll(cs[1..]);
      EncodeAllRoundTrip(cs[1..]);
    }
  }
}
