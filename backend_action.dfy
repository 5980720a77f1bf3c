/**
 * swiftty_backend's recording executor: a `Dispatcher` keeps the actions
 * the parser hands it in a list, in call order, until they are taken;
 * `index_of` finds the first occurrence of a byte.
 */
module BackendAction {
  import opened Common
  import C0
  import E = Executor

  /** `Action`: the executor calls the dispatcher records. */
  datatype Action = Print(c: char) | Execute(b: u8) | Put(b: u8) | Unhook

  /**
   * The action a call is recorded as; the other calls (`hook`,
   * `osc_dispatch`, `esc_dispatch`, `csi_dispatch`) are `todo!()` and
   * have none.
   */
  function ActionOf(call: E.Call): (r: Option<Action>)
    ensures r.Some? <==> call.Print? || call.Execute? || call.Put? || call.Unhook?
  {
    match call
    case Print(c) => Some(Print(c))
    case Execute(b) => Some(Execute(b))
    case Put(b) => Some(Put(b))
    case Unhook => Some(Unhook)
    case _ => None
  }

  /** Whether a call records its own payload under the action of the same name. */
  predicate Records(call: E.Call, a: Action) {
    match call
    case Print(c) => a == Print(c)
    case Execute(b) => a == Execute(b)
    case Put(b) => a == Put(b)
    case Unhook => a == Unhook
    case _ => false
  }

  /** The actions a run of calls records, or None where one of them is `todo!()`. */
  function Recorded(calls: seq<E.Call>): (r: Option<seq<Action>>)
    ensures r.Some? <==> forall i :: 0 <= i < |calls| ==> ActionOf(calls[i]).Some?
  {
    if |calls| == 0 then Some([])
    else
      var head := ActionOf(calls[|calls| - 1]);
      var init := Recorded(calls[..|calls| - 1]);
      assert forall i :: 0 <= i < |calls| - 1 ==> calls[..|calls| - 1][i] == calls[i];
      if head.None? || init.None? then None else Some(init.value + [head.value])
  }

  lemma ActionOfRecords(call: E.Call)
    requires ActionOf(call).Some?
    ensures Records(call, ActionOf(call).value)
  {
  }

  /** One action per call, each the record of the call at the same place. */
  lemma {:induction false} RecordedInOrder(calls: seq<E.Call>)
    requires Recorded(calls).Some?
    ensures |Recorded(calls).value| == |calls|
    ensures forall i :: 0 <= i < |calls| ==> Records(calls[i], Recorded(calls).value[i])
  {
    if |calls| > 0 {
      var init := calls[..|calls| - 1];
      RecordedInOrder(init);
      ActionOfRecords(calls[|calls| - 1]);
      forall i | 0 <= i < |calls|
        ensures Records(calls[i], Recorded(calls).value[i])
      {
        if i < |calls| - 1 {
          assert init[i] == calls[i];
        }
      }
    }
  }

  /** Recording two runs one after the other records their concatenation. */
  lemma {:induction false} RecordedAppend(xs: seq<E.Call>, ys: seq<E.Call>)
    requires Recorded(xs).Some? && Recorded(ys).Some?
    ensures Recorded(xs + ys) == Some(Recorded(xs).value + Recorded(ys).value)
    decreases |ys|
  {
    if |ys| == 0 {
      assert xs + ys == xs && Recorded(ys) == Some([]);
      assert Recorded(xs).value + [] == Recorded(xs).value;
    } else {
      var init := ys[..|ys| - 1];
      assert (xs + ys)[..|xs + ys| - 1] == xs + init;
      assert forall i :: 0 <= i < |init| ==> init[i] == ys[i];
      assert (xs + ys)[|xs + ys| - 1] == ys[|ys| - 1];
      RecordedAppend(xs, init);
      var head := ActionOf(ys[|ys| - 1]);
      assert Recorded(ys) == Some(Recorded(init).value + [head.value]);
      assert Recorded(xs + ys) == Some(Recorded(xs + init).value + [head.value]);
      assert (Recorded(xs).value + Recorded(init).value) + [head.value] == Recorded(xs).value + (Recorded(init).value + [head.value]);
    }
  }

  class Dispatcher {
    var dispatched: seq<Action>

    /** `Dispatcher::new`, the derived default: nothing recorded. */
    constructor()
      ensures dispatched == []
    {
      dispatched := [];
    }

    /** `take_dispatched_actions`: everything recorded, in order, leaving nothing behind. */
    method TakeDispatchedActions() returns (actions: seq<Action>)
      modifies this
      ensures actions == old(dispatched) && dispatched == []
    {
      actions := dispatched;
      dispatched := [];
    }

    /** `print`. */
    method Print(c: char)
      modifies this
      ensures dispatched == old(dispatched) + [Action.Print(c)]
    {
      dispatched := dispatched + [Action.Print(c)];
    }

    /** `execute`. */
    method Execute(b: u8)
      modifies this
      ensures dispatched == old(dispatched) + [Action.Execute(b)]
    {
      dispatched := dispatched + [Action.Execute(b)];
    }

    /** `put`. */
    method Put(b: u8)
      modifies this
      ensures dispatched == old(dispatched) + [Action.Put(b)]
    {
      dispatched := dispatched + [Action.Put(b)];
    }

    /** `unhook`. */
    method Unhook()
      modifies this
      ensures dispatched == old(dispatched) + [Action.Unhook]
    {
      dispatched := dispatched + [Action.Unhook];
    }

    /**
     * One executor call made by the parser: a recorded one appends its
     * action; one of the `todo!()` calls panics, with nothing recorded.
     */
    method Dispatch(call: E.Call) returns (panicked: bool)
      modifies this
      ensures panicked <==> ActionOf(call).None?
      ensures dispatched == old(dispatched) + (if panicked then [] else [ActionOf(call).value])
    {
      panicked := false;
      match call {
        case Print(c) => Print(c);
        case Execute(b) => Execute(b);
        case Put(b) => Put(b);
        case Unhook => Unhook();
        case _ =>
          panicked := true;
          assert dispatched + [] == dispatched;
      }
    }

    /** A run of executor calls, up to the first that panics. */
    method DispatchAll(calls: seq<E.Call>) returns (panicked: bool)
      modifies this
      ensures panicked <==> Recorded(calls).None?
      ensures !panicked ==> dispatched == old(dispatched) + Recorded(calls).value
    {
      for i := 0 to |calls|
        invariant Recorded(calls[..i]).Some?
        invariant dispatched == old(dispatched) + Recorded(calls[..i]).value
      {
        panicked := Dispatch(calls[i]);
        if panicked {
          assert calls[..i + 1][i] == calls[i];
          return;
        }
        assert calls[..i + 1][..i] == calls[..i];
        assert calls[..i + 1][i] == calls[i];
      }
      assert calls[..|calls|] == calls;
      panicked := false;
    }
  }

  /** `index_of`: the bytes in order, stopping at the first equal to the needle. */
  method IndexOf(haystack: seq<u8>, needle: u8) returns (r: Option<nat>)
    ensures r.Some? ==> r.value < |haystack| && haystack[r.value] == needle
    ensures r.Some? ==> forall j :: 0 <= j < r.value ==> haystack[j] != needle
    ensures r.None? <==> needle !in haystack
    ensures r == C0.FirstIndexIn(haystack, [needle])
  {
    for i := 0 to |haystack|
      invariant forall j :: 0 <= j < i ==> haystack[j] != needle
    {
      if haystack[i] == needle {
        C0.FirstIndexInUnique(haystack, [needle], i);
        return Some(i);
      }
    }
    return None;
  }
}
