/** swiftty_vte's intermediate `Handler`: at most two intermediate bytes, with a guarded push. */
module SwifttyIntermediate {
  import opened Common

  const MAX_INTERMEDIATES: nat := 2

  class Handler {
    const bytes: array<u8>
    var index: nat

    ghost predicate Valid()
      reads this
    {
      bytes.Length == MAX_INTERMEDIATES && index <= MAX_INTERMEDIATES
    }

    /** `as_slice`: the first `index` bytes. */
    function AsSlice(): (s: seq<u8>)
      requires Valid()
      reads this, bytes
      ensures |s| == index <= MAX_INTERMEDIATES
    {
      bytes[..index]
    }

    /** `Handler::default`. */
    constructor()
      ensures Valid() && fresh(bytes) && AsSlice() == []
    {
      bytes := new u8[MAX_INTERMEDIATES](_ => 0);
      index := 0;
    }

    /** `is_full`. */
    function IsFull(): (r: bool)
      requires Valid()
      reads this
      ensures r <==> |AsSlice()| == MAX_INTERMEDIATES
    {
      index == MAX_INTERMEDIATES
    }

    /** `push`: appends while there is room, otherwise does nothing. */
    method Push(b: u8)
      requires Valid()
      modifies this, bytes
      ensures Valid()
      ensures old(|AsSlice()|) < MAX_INTERMEDIATES ==> AsSlice() == old(AsSlice()) + [b]
      ensures old(|AsSlice()|) == MAX_INTERMEDIATES ==> AsSlice() == old(AsSlice())
    {
      if IsFull() {
        return;
      }
      bytes[index] := b;
      index := index + 1;
    }

    /** `clear`. */
    method Clear()
      requires Valid()
      modifies this
      ensures Valid() && AsSlice() == []
    {
      index := 0;
    }
  }
}
