/**
 * The calls a parser makes on its executor (the `Executor` trait of both
 * parsers), recorded in order. Parameter lists are recorded as the
 * executor observes them by iterating `Params` and taking each `to_slice`.
 */
module Executor {
  import opened Common

  datatype Call =
    | Print(c: char)
    | Execute(byte: u8)
    | Put(byte: u8)
    | Hook(hookParams: seq<seq<u16>>, hookIntermediates: seq<u8>, hookIgnore: bool, hookAction: char)
    | Unhook
    | OscDispatch(oscParams: seq<seq<u8>>, bellTerminated: bool)
    | EscDispatch(escIntermediates: seq<u8>, escIgnore: bool, escByte: u8)
    | CsiDispatch(csiParams: seq<seq<u16>>, csiIntermediates: seq<u8>, csiIgnore: bool, csiAction: char)

  /** One `print` call per character, in order. */
  function Prints(cs: seq<char>): (calls: seq<Call>)
    ensures |calls| == |cs|
    ensures forall i :: 0 <= i < |cs| ==> calls[i] == Print(cs[i])
  {
    if |cs| == 0 then [] else [Print(cs[0])] + Prints(cs[1..])
  }

  /** One `put` call per byte of DCS data, in order. */
  function Puts(bs: seq<u8>): (calls: seq<Call>)
    ensures |calls| == |bs|
    ensures forall i :: 0 <= i < |bs| ==> calls[i] == Put(bs[i])
  {
    if |bs| == 0 then [] else [Put(bs[0])] + Puts(bs[1..])
  }

  /** Recording calls in batches keeps them in order. */
  lemma EmptyEnds(a: seq<Call>, b: seq<Call>, c: seq<Call>, d: seq<Call>)
    requires a == [] && d == []
    ensures a + b + c + d == b + c
  {
  }

  lemma CallsAssociative(a: seq<Call>, b: seq<Call>, c: seq<Call>)
    ensures a + (b + c) == (a + b) + c
  {
  }

  lemma {:induction false} PrintsAppend(a: seq<char>, b: seq<char>)
    ensures Prints(a + b) == Prints(a) + Prints(b)
  {
    assert |Prints(a + b)| == |Prints(a) + Prints(b)|;
    forall i | 0 <= i < |a + b|
      ensures Prints(a + b)[i] == (Prints(a) + Prints(b))[i]
    {
      if i < |a| {
        assert (a + b)[i] == a[i];
      } else {
        assert (a + b)[i] == b[i - |a|];
      }
    }
  }
}
