/**
 * The C0 scans of swiftty_backend: a scalar search for the first byte of a
 * control set, and a 16-lane search that compares a block of sixteen bytes
 * with one splat per control byte, keeps the least matching lane of each
 * splat and the least of those, and falls back to the scalar search once
 * fewer than sixteen bytes are left. Both compute `C0.FirstIndexIn`.
 */
module BackendScan {
  import opened Common
  import C0

  /** `LANES`: the width of a block. */
  const LANES: nat := 16

  /** `u8::MAX`, the lane value of `nulls` that `select` keeps where a lane does not match. */
  const NULL_LANE: nat := 255

  /** `C0_ARRAY` of the processor: the eleven controls its text is cut at. */
  const C0_ARRAY: seq<u8> := [0x1B, 0x0D, 0x08, 0x07, 0x00, 0x09, 0x0A, 0x0B, 0x0C, 0x0E, 0x0F]

  /** The processor's controls are ESC, NUL and BEL through SI. */
  lemma C0ArrayCharacterization(b: u8)
    ensures b in C0_ARRAY <==> b == C0.ESC || b == C0.NUL || C0.BEL <= b <= C0.SI
  {
    if b == C0.ESC || b == C0.NUL || C0.BEL <= b <= C0.SI {
      var i := if b == C0.ESC then 0 else if b == C0.CR then 1 else if b == C0.BS then 2
        else if b == C0.BEL then 3 else if b == C0.NUL then 4 else if b <= C0.FF then b - 4 else b - 5;
      assert C0_ARRAY[i] == b;
    }
  }

  /**
   * Every one of them is in the C0 set of the parser, so the processor
   * stops no earlier than the parser's own scan would.
   */
  lemma C0ArrayWithinC0Set(haystack: seq<u8>)
    ensures forall b :: b in C0_ARRAY ==> C0.InC0Set(b)
    ensures C0.FirstIndexIn(haystack, C0_ARRAY).Some? ==>
      C0.FirstIndexOfC0(haystack).Some? && C0.FirstIndexOfC0(haystack).value <= C0.FirstIndexIn(haystack, C0_ARRAY).value
  {
    forall b | b in C0_ARRAY
      ensures C0.InC0Set(b)
    {
      C0ArrayCharacterization(b);
      C0.AllCharacterization(b);
    }
    var r := C0.FirstIndexIn(haystack, C0_ARRAY);
    if r.Some? {
      assert C0.InC0Set(haystack[r.value]);
    }
  }

  /** `first_index_of_c0_scalar`: the bytes in order, stopping at the first one in `needles`. */
  method FirstIndexScalar(haystack: seq<u8>, needles: seq<u8>) returns (r: Option<nat>)
    ensures r == C0.FirstIndexIn(haystack, needles)
  {
    var i := 0;
    while i < |haystack|
      invariant 0 <= i <= |haystack|
      invariant forall j :: 0 <= j < i ==> haystack[j] !in needles
    {
      if haystack[i] in needles {
        C0.FirstIndexInUnique(haystack, needles, i);
        return Some(i);
      }
      i := i + 1;
    }
    return None;
  }

  /** `reduce_min`: the least lane value. */
  method ReduceMin(lanes: seq<nat>) returns (m: nat)
    requires |lanes| > 0
    ensures m in lanes
    ensures forall i :: 0 <= i < |lanes| ==> m <= lanes[i]
  {
    m := lanes[0];
    for i := 1 to |lanes|
      invariant m in lanes[..i]
      invariant forall j :: 0 <= j < i ==> m <= lanes[j]
    {
      if lanes[i] < m {
        m := lanes[i];
      }
    }
    assert lanes[..|lanes|] == lanes;
  }

  /**
   * One splat against a block: `simd_eq`, `any`, then `select(indices,
   * nulls)` and `reduce_min`, which is the least matching lane.
   */
  method SplatIndex(h: seq<u8>, needle: u8) returns (lane: Option<nat>)
    requires |h| == LANES
    ensures lane == C0.FirstIndexIn(h, [needle])
  {
    var matches := seq(LANES, l requires 0 <= l < LANES => h[l] == needle);
    if true !in matches {
      assert forall j :: 0 <= j < |h| ==> h[j] !in [needle] by {
        forall j | 0 <= j < |h|
          ensures h[j] !in [needle]
        {
          assert matches[j] == (h[j] == needle);
        }
      }
      return None;
    }
    var selected := seq(LANES, l requires 0 <= l < LANES => if matches[l] then l else NULL_LANE);
    var least := ReduceMin(selected);
    var first :| 0 <= first < LANES && matches[first];
    assert selected[first] == first;
    var at :| 0 <= at < LANES && selected[at] == least;
    assert matches[at] && least == at;
    forall j | 0 <= j < least
      ensures h[j] !in [needle]
    {
      assert matches[j] == (h[j] == needle) && least <= selected[j];
    }
    C0.FirstIndexInUnique(h, [needle], least);
    return Some(least);
  }

  /**
   * The `filter_map(..).min()` over the splats for the block `h` found at
   * `pos`: each splat that matches offers its least lane plus `pos`, and
   * the least offer wins.
   */
  method BlockIndex(h: seq<u8>, needles: seq<u8>, pos: nat) returns (index: Option<nat>)
    requires |h| == LANES
    ensures index.Some? ==> pos <= index.value < pos + LANES && h[index.value - pos] in needles
    ensures index.Some? ==> forall j :: 0 <= j < index.value - pos ==> h[j] !in needles
    ensures index.None? ==> forall j :: 0 <= j < LANES ==> h[j] !in needles
  {
    index := None;
    for s := 0 to |needles|
      invariant index.Some? ==> pos <= index.value < pos + LANES && h[index.value - pos] in needles[..s]
      invariant index.Some? ==> forall j :: 0 <= j < index.value - pos ==> h[j] !in needles[..s]
      invariant index.None? ==> forall j :: 0 <= j < LANES ==> h[j] !in needles[..s]
    {
      assert needles[..s + 1] == needles[..s] + [needles[s]];
      var lane := SplatIndex(h, needles[s]);
      if lane.Some? {
        var offer := lane.value + pos;
        if index.None? || offer < index.value {
          index := Some(offer);
        }
      }
    }
    assert needles[..|needles|] == needles;
  }

  /**
   * `first_index_of_c0`: sixteen bytes at a time from the front; a block
   * with a match gives the least matching index, and fewer than sixteen
   * bytes left hand the whole haystack to the scalar search.
   */
  method FirstIndexLanes(haystack: seq<u8>, needles: seq<u8>) returns (r: Option<nat>)
    ensures r == C0.FirstIndexIn(haystack, needles)
  {
    var pos: nat := 0;
    var left: nat := |haystack|;
    while left > 0
      invariant pos + left == |haystack|
      invariant forall j :: 0 <= j < pos ==> haystack[j] !in needles
      decreases left
    {
      if left < LANES {
        r := FirstIndexScalar(haystack, needles);
        return;
      }
      var h := haystack[pos..pos + LANES];
      var index := BlockIndex(h, needles, pos);
      if index.Some? {
        forall j | pos <= j < index.value
          ensures haystack[j] !in needles
        {
          assert haystack[j] == h[j - pos];
        }
        assert haystack[index.value] == h[index.value - pos];
        C0.FirstIndexInUnique(haystack, needles, index.value);
        return index;
      }
      forall j | pos <= j < pos + LANES
        ensures haystack[j] !in needles
      {
        assert haystack[j] == h[j - pos];
      }
      pos := pos + LANES;
      left := left - LANES;
    }
    return None;
  }

  /** The processor's scalar scan (`first_index_of_c0_scalar` over `C0_ARRAY`). */
  method ProcessorFirstIndexScalar(haystack: seq<u8>) returns (r: Option<nat>)
    ensures r == C0.FirstIndexIn(haystack, C0_ARRAY)
  {
    r := FirstIndexScalar(haystack, C0_ARRAY);
  }

  /** The processor's lane scan (`first_index_of_c0` over the splats of `C0_ARRAY`). */
  method ProcessorFirstIndex(haystack: seq<u8>) returns (r: Option<nat>)
    ensures r == C0.FirstIndexIn(haystack, C0_ARRAY)
  {
    r := FirstIndexLanes(haystack, C0_ARRAY);
  }

  /** The `ansi` module's scalar scan over the C0 set. */
  method AnsiFirstIndexScalar(haystack: seq<u8>) returns (r: Option<nat>)
    ensures r == C0.FirstIndexOfC0(haystack)
  {
    r := FirstIndexScalar(haystack, C0.ALL);
  }

  /** The `ansi` module's lane scan over the splats of the C0 set. */
  method AnsiFirstIndex(haystack: seq<u8>) returns (r: Option<nat>)
    ensures r == C0.FirstIndexOfC0(haystack)
  {
    r := FirstIndexLanes(haystack, C0.ALL);
  }
}
