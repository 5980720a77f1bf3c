/**
 * swiftty_backend's lead-byte tables: the `>>3` table of its `utf8` module
 * and the exact table of section 4 of RFC 3629 in its `utf` module.
 */
module BackendUtf8 {
  import opened Common
  import opened Utf8Decode
  import Utf8

  /** `LENGTHS` of the backend's `expected_bytes_count`. */
  const LENGTHS: seq<nat> := [
    1, 1, 1, 1, 1, 1, 1, 1, 1, 1, 1, 1, 1, 1, 1, 1,
    0, 0, 0, 0, 0, 0, 0, 0,
    2, 2, 2, 2,
    3, 3,
    4,
    0
  ]

  /** `expected_bytes_count`: the table entry, None where it is 0. */
  function ExpectedBytesCount(firstByte: u8): (r: Option<nat>)
    ensures r != Some(0)
  {
    var len := LENGTHS[firstByte / 8];
    if len == 0 then None else Some(len)
  }

  /** The backend's table classifies every byte as saiga_vte's does. */
  lemma AgreesWithVte(b: u8)
    ensures ExpectedBytesCount(b) == Utf8.ExpectedBytesCount(b)
  {
    Utf8.ExpectedBytesCountRanges(b);
  }

  /** `find_utf8_start`: a stub that finds nothing. */
  function FindUtf8Start(bytes: seq<u8>): (r: Option<nat>)
    ensures r.None?
  {
    None
  }

  datatype Utf8BytesCount = One | Two | Three | Four
  {
    function Value(): (n: nat)
      ensures 1 <= n <= 4
    {
      match this
      case One => 1
      case Two => 2
      case Three => 3
      case Four => 4
    }
  }

  /** `expected_utf8_bytes_count`: the lead-byte ranges of section 4 of RFC 3629. */
  function ExpectedUtf8BytesCount(firstByte: u8): (r: Option<Utf8BytesCount>)
  {
    if firstByte <= 0x7F then Some(One)
    else if 0xC2 <= firstByte <= 0xDF then Some(Two)
    else if 0xE0 <= firstByte <= 0xEF then Some(Three)
    else if 0xF0 <= firstByte <= 0xF4 then Some(Four)
    else None
  }

  /** A shortest well-formed sequence with the given lead byte and length. */
  function Witness(lead: u8, n: nat): seq<u8>
    requires 1 <= n <= 4
  {
    var second: u8 := if lead == 0xE0 then 0xA0 else if lead == 0xF0 then 0x90 else 0x80;
    if n == 1 then [lead]
    else if n == 2 then [lead, 0x80]
    else if n == 3 then [lead, second, 0x80]
    else [lead, second, 0x80, 0x80]
  }

  /**
   * The exact table names precisely the lead bytes of well-formed
   * sequences, with their lengths: every well-formed sequence has the
   * length its lead byte says, and every byte the table accepts starts a
   * well-formed sequence of that length.
   */
  lemma ExactLeadBytes(s: seq<u8>)
    ensures SequenceLength(s).Some? ==>
      ExpectedUtf8BytesCount(s[0]).Some? && ExpectedUtf8BytesCount(s[0]).value.Value() == SequenceLength(s).value
  {
  }

  lemma ExactLeadBytesComplete(b: u8)
    requires ExpectedUtf8BytesCount(b).Some?
    ensures SequenceLength(Witness(b, ExpectedUtf8BytesCount(b).value.Value())) == Some(ExpectedUtf8BytesCount(b).value.Value())
  {
  }

  /** A byte the table rejects starts no well-formed sequence. */
  lemma RejectedLeadBytes(s: seq<u8>)
    requires |s| > 0 && ExpectedUtf8BytesCount(s[0]).None?
    ensures SequenceLength(s).None?
    ensures 0x80 <= s[0] <= 0xC1 || 0xF5 <= s[0]
  {
  }

  /**
   * The `>>3` table agrees with the exact one wherever the exact one gives
   * a length, and differs from it only at the overlong leads 0xC0 and 0xC1
   * and at 0xF5-0xF7.
   */
  lemma LooseTableExtendsExact(b: u8)
    ensures ExpectedUtf8BytesCount(b).Some? ==> Utf8.ExpectedBytesCount(b) == Some(ExpectedUtf8BytesCount(b).value.Value())
    ensures (ExpectedUtf8BytesCount(b).None? && Utf8.ExpectedBytesCount(b).Some?) <==> (b == 0xC0 || b == 0xC1 || 0xF5 <= b <= 0xF7)
  {
    Utf8.ExpectedBytesCountRanges(b);
  }
}
