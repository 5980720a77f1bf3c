/**
 * swiftty_vte's flat `Params`: up to 32 parameter values in a fixed array
 * and the number in use.
 */
module SwifttyParam {
  import opened Common

  const MAX_PARAMS: nat := 32

  class Params {
    const list: array<u16>
    var len: nat

    ghost predicate Valid()
      reads this
    {
      list.Length == MAX_PARAMS && len <= MAX_PARAMS
    }

    /** The values in use. */
    function Contents(): (s: seq<u16>)
      requires Valid()
      reads this, list
      ensures |s| == len
    {
      list[..len]
    }

    /** `Params::default`. */
    constructor()
      ensures Valid() && fresh(list) && Contents() == []
    {
      list := new u16[MAX_PARAMS](_ => 0);
      len := 0;
    }

    /** `is_full`. */
    function IsFull(): (r: bool)
      requires Valid()
      reads this
      ensures r <==> |Contents()| == MAX_PARAMS
    {
      len == MAX_PARAMS
    }

    /** `clear`: no value is in use; the array keeps its contents. */
    method Clear()
      requires Valid()
      modifies this
      ensures Valid() && Contents() == [] && list[..] == old(list[..])
    {
      len := 0;
    }

    /**
     * `push`: stores at `list[len]` and counts it. There is no guard, so on
     * a full list the index is out of range and `push` panics, changing
     * nothing.
     */
    method Push(param: u16) returns (panicked: bool)
      requires Valid()
      modifies this, list
      ensures Valid() && (panicked <==> old(IsFull()))
      ensures panicked ==> len == old(len) && list[..] == old(list[..])
      ensures !panicked ==> Contents() == old(Contents()) + [param]
      ensures forall i :: 0 <= i < old(len) ==> list[i] == old(list[i])
    {
      if len == MAX_PARAMS {
        return true;
      }
      list[len] := param;
      len := len + 1;
      return false;
    }
  }
}
