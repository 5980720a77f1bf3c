/**
 * The C0 set of 7-bit control characters of ANSI X3.4-1977 as the parser
 * uses it to cut printable text from control input.
 */
module C0 {
  import opened Common

  const NUL: u8 := 0x00
  const BEL: u8 := 0x07
  const BS: u8 := 0x08
  const HT: u8 := 0x09
  const LF: u8 := 0x0A
  const VT: u8 := 0x0B
  const FF: u8 := 0x0C
  const CR: u8 := 0x0D
  const SO: u8 := 0x0E
  const SI: u8 := 0x0F
  const NAK: u8 := 0x15
  const CAN: u8 := 0x18
  const SUB: u8 := 0x1A
  const ESC: u8 := 0x1B
  const DEL: u8 := 0x7F

  /** `ALL`: every C0 control except NAK, and DEL. */
  const ALL: seq<u8> := [
    0x00, 0x01, 0x02, 0x03, 0x04, 0x05, 0x06, 0x07, 0x08, 0x09, 0x0A, 0x0B, 0x0C, 0x0D, 0x0E, 0x0F,
    0x10, 0x11, 0x12, 0x13, 0x14, 0x16, 0x17, 0x18, 0x19, 0x1A, 0x1B, 0x1C, 0x1D, 0x1E, 0x1F, 0x7F
  ]

  /** Membership in `ALL`, the predicate `C0_SET` tabulates. */
  predicate InC0Set(b: u8)
  {
    b in ALL
  }

  /** `ALL` holds 32 distinct bytes: 0x00-0x1F without NAK, and DEL. */
  lemma AllCharacterization(b: u8)
    ensures |ALL| == 32
    ensures InC0Set(b) <==> (b <= 0x1F && b != NAK) || b == DEL
  {
    if (b <= 0x1F && b != NAK) || b == DEL {
      var i := if b == DEL then 31 else if b < NAK then b else b - 1;
      assert ALL[i] == b;
    }
  }

  /**
   * The C0 set the transition table implies: `ALL` with NAK added, so that
   * every C0 control the ground state executes stops the text path.
   */
  const ALL_WITH_NAK: seq<u8> := ALL + [NAK]

  /** `ALL_WITH_NAK` holds 33 bytes: exactly 0x00-0x1F and DEL. */
  lemma AllWithNakCharacterization(b: u8)
    ensures |ALL_WITH_NAK| == 33
    ensures b in ALL_WITH_NAK <==> b <= 0x1F || b == DEL
  {
    AllCharacterization(b);
    assert b in ALL_WITH_NAK <==> b in ALL || b == NAK;
  }

  /** C1 controls are not in the set; in text they go to the UTF-8 path. */
  lemma C1NotInC0Set(b: u8)
    requires 0x80 <= b <= 0x9F
    ensures !InC0Set(b)
  {
    AllCharacterization(b);
  }

  /** `is_c0`: a linear search through `ALL`. */
  method IsC0(b: u8) returns (found: bool)
    ensures found <==> InC0Set(b)
  {
    var i := 0;
    while i != |ALL|
      invariant 0 <= i <= |ALL|
      invariant forall j :: 0 <= j < i ==> ALL[j] != b
    {
      if ALL[i] == b {
        return true;
      }
      i := i + 1;
    }
    return false;
  }

  /** `build_c0_set`: fills all 256 entries of the lookup table from `is_c0`. */
  method BuildC0Set() returns (table: array<bool>)
    ensures fresh(table)
    ensures table.Length == 256
    ensures forall b: u8 :: table[b] <==> InC0Set(b)
  {
    table := new bool[256](_ => false);
    var b := 0;
    while true
      invariant 0 <= b <= 255
      invariant forall c: u8 :: c < b ==> (table[c] <==> InC0Set(c))
      decreases 255 - b
    {
      var isC0 := IsC0(b);
      table[b] := isC0;
      if b == 255 {
        break;
      }
      b := b + 1;
    }
  }

  /** The least index of `haystack` whose byte is in `needles`, if any. */
  function FirstIndexIn(haystack: seq<u8>, needles: seq<u8>): (r: Option<nat>)
    ensures r.Some? ==> r.value < |haystack| && haystack[r.value] in needles
    ensures r.Some? ==> forall j :: 0 <= j < r.value ==> haystack[j] !in needles
    ensures r.None? <==> forall j :: 0 <= j < |haystack| ==> haystack[j] !in needles
  {
    if |haystack| == 0 then None
    else if haystack[0] in needles then Some(0)
    else match FirstIndexIn(haystack[1..], needles)
      case None => None
      case Some(k) => Some(k + 1)
  }

  /** `first_index_of_c0`: the least index of a byte in the C0 set. */
  function FirstIndexOfC0(haystack: seq<u8>): (r: Option<nat>)
    ensures r.Some? ==> r.value < |haystack| && InC0Set(haystack[r.value])
    ensures r.Some? ==> forall j :: 0 <= j < r.value ==> !InC0Set(haystack[j])
    ensures r.None? <==> forall j :: 0 <= j < |haystack| ==> !InC0Set(haystack[j])
  {
    FirstIndexIn(haystack, ALL)
  }

  /** A result that satisfies the least-index specification is unique. */
  lemma FirstIndexInUnique(haystack: seq<u8>, needles: seq<u8>, k: nat)
    requires k < |haystack| && haystack[k] in needles
    requires forall j :: 0 <= j < k ==> haystack[j] !in needles
    ensures FirstIndexIn(haystack, needles) == Some(k)
  {
  }
}
