/**
 * Lead-byte classification and the collector that buffers the bytes of
 * one UTF-8 sequence (saiga_vte's `utf8` module).
 */
module Utf8 {
  import opened Common
  import opened Utf8Decode

  const MAX_LENGTH: nat := 4

  /** A sequence length class: 0 stands for "not a lead byte". */
  type LengthClass = x: nat | x <= 4

  /** `LENGTHS`, indexed by the five high bits of a byte. */
  const LENGTHS: seq<LengthClass> := [
    1, 1, 1, 1, 1, 1, 1, 1, 1, 1, 1, 1, 1, 1, 1, 1,
    0, 0, 0, 0, 0, 0, 0, 0,
    2, 2, 2, 2,
    3, 3,
    4,
    0
  ]

  const EXPECTED: seq<Option<nat>> := [None, Some(1), Some(2), Some(3), Some(4)]

  /** `expected_bytes_count`: `EXPECTED[LENGTHS[first_byte >> 3]]`. */
  function ExpectedBytesCount(firstByte: u8): (r: Option<nat>)
    ensures r.Some? ==> 1 <= r.value <= MAX_LENGTH
  {
    EXPECTED[LENGTHS[firstByte / 8]]
  }

  /**
   * The table by byte ranges: 1 for ASCII, None for continuation bytes,
   * 2, 3 and 4 for the 0xC0, 0xE0 and 0xF0 blocks, None from 0xF8.
   */
  lemma ExpectedBytesCountRanges(b: u8)
    ensures ExpectedBytesCount(b) ==
      if b <= 0x7F then Some(1)
      else if b <= 0xBF then None
      else if b <= 0xDF then Some(2)
      else if b <= 0xEF then Some(3)
      else if b <= 0xF7 then Some(4)
      else None
  {
  }

  /**
   * The table is looser than section 4 of RFC 3629 but never wrong on a
   * well-formed sequence: it gives the length of every sequence the
   * decoder accepts.
   */
  lemma ExpectedBytesCountOfWellFormed(s: seq<u8>)
    requires SequenceLength(s).Some?
    ensures ExpectedBytesCount(s[0]) == SequenceLength(s)
  {
    ExpectedBytesCountRanges(s[0]);
  }

  /**
   * `into_char`: the first scalar value of valid UTF-8, U+FFFD for
   * anything else. The source panics on an empty slice.
   */
  function IntoChar(utf8: seq<u8>): (c: char)
    requires |utf8| > 0
  {
    match FromUtf8(utf8)
    case Ok(chars) => chars[0]
    case Err(_) => REPLACEMENT_CHARACTER
  }

  /** The encoding of a scalar value turns back into that scalar value. */
  lemma IntoCharOfEncoding(c: char)
    ensures IntoChar(Encode(c)) == c
  {
    EncodeDecodes(c, []);
    assert Encode(c) + [] == Encode(c);
    EncodeAllRoundTrip([c]);
    assert EncodeAll([c]) == Encode(c) + EncodeAll([]);
  }

  /** Bytes that are not valid UTF-8, such as a lone lead or continuation byte, give U+FFFD. */
  lemma IntoCharOfInvalid(utf8: seq<u8>)
    requires |utf8| > 0 && FromUtf8(utf8).Err?
    ensures IntoChar(utf8) == REPLACEMENT_CHARACTER
  {
  }

  /** A truncated sequence, a lead byte without its continuation bytes, is invalid. */
  lemma TruncatedIsInvalid(utf8: seq<u8>)
    requires 1 <= |utf8| < 4
    requires ExpectedBytesCount(utf8[0]) == Some(4) || (ExpectedBytesCount(utf8[0]) == Some(3) && |utf8| < 3)
      || (ExpectedBytesCount(utf8[0]) == Some(2) && |utf8| < 2)
    ensures FromUtf8(utf8).Err?
  {
    ExpectedBytesCountRanges(utf8[0]);
  }

  /** `UTF8Collector`: up to four bytes of one sequence and the count still expected. */
  class Utf8Collector {
    const bytes: array<u8>
    var len: nat
    var remainingCount: nat

    ghost predicate Valid()
      reads this
    {
      bytes.Length == MAX_LENGTH && len <= MAX_LENGTH
    }

    /** `as_slice`: the collected bytes. */
    function Contents(): (r: seq<u8>)
      requires Valid()
      reads this, bytes
      ensures |r| == len
    {
      bytes[..len]
    }

    /** `UTF8Collector::default`. */
    constructor()
      ensures Valid() && fresh(bytes)
      ensures Contents() == [] && remainingCount == 0
    {
      bytes := new u8[MAX_LENGTH](_ => 0);
      len := 0;
      remainingCount := 0;
    }

    /** `push`: appends one byte; the array write requires room. */
    method Push(b: u8)
      requires Valid() && len < MAX_LENGTH
      modifies this, bytes
      ensures Valid()
      ensures Contents() == old(Contents()) + [b]
      ensures remainingCount == old(remainingCount)
    {
      bytes[len] := b;
      len := len + 1;
    }

    /** `reset`: forgets the collected bytes and the expected count. */
    method Reset()
      requires Valid()
      modifies this
      ensures Valid()
      ensures Contents() == [] && remainingCount == 0
    {
      len := 0;
      remainingCount := 0;
    }

    /** `char`: the collected bytes as one scalar value. */
    function Char(): char
      requires Valid() && len > 0
      reads this, bytes
    {
      IntoChar(Contents())
    }
  }
}
