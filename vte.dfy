/**
 * saiga_vte's parser objects: the intermediate buffer, the OSC handler and
 * the `Parser` itself, each updating its fields in place. Every method is
 * proved against the value-level definitions of `VteModel`.
 */
module Vte {
  import opened Common
  import opened Table
  import opened VteParams
  import opened Utf8Decode
  import opened VteModel
  import C0
  import E = Executor

  /** `Intermediates`: at most two intermediate bytes. */
  class Intermediates {
    const buf: array<u8>
    var index: nat

    ghost predicate Valid()
      reads this
    {
      buf.Length == MAX_INTERMEDIATES && index <= MAX_INTERMEDIATES
    }

    /** `as_slice`. */
    function Slice(): (s: seq<u8>)
      requires Valid()
      reads this, buf
      ensures |s| == index
    {
      buf[..index]
    }

    constructor()
      ensures Valid() && fresh(buf) && Slice() == []
    {
      buf := new u8[MAX_INTERMEDIATES](_ => 0);
      index := 0;
    }

    /** `is_full`. */
    function IsFull(): (r: bool)
      requires Valid()
      reads this
      ensures r <==> |Slice()| == MAX_INTERMEDIATES
    {
      index == MAX_INTERMEDIATES
    }

    /** `push`: unguarded; every caller checks `is_full` first. */
    method Push(b: u8)
      requires Valid() && !IsFull()
      modifies this, buf
      ensures Valid() && Slice() == old(Slice()) + [b]
    {
      buf[index] := b;
      index := index + 1;
    }

    /** `clear`. */
    method Clear()
      requires Valid()
      modifies this
      ensures Valid() && Slice() == []
    {
      index := 0;
    }
  }

  /** `OscHandler`: 16 parameter spans, their count, and at most 1024 raw bytes. */
  class OscHandler {
    const spans: array<(nat, nat)>
    var num: nat
    var raw: seq<u8>

    ghost predicate Valid()
      reads this, spans
    {
      spans.Length == MAX_OSC_PARAMS && num <= MAX_OSC_PARAMS && |raw| <= MAX_OSC_RAW
      && Contiguous(spans[..num], |raw|)
    }

    function Value(): (v: OscValue)
      requires Valid()
      reads this, spans
      ensures v.Valid()
    {
      OscValue(spans[..num], raw)
    }

    constructor()
      ensures Valid() && fresh(spans) && Value() == EMPTY_OSC
    {
      spans := new (nat, nat)[MAX_OSC_PARAMS](_ => (0, 0));
      num := 0;
      raw := [];
    }

    /** `start`: forgets the raw bytes and the parameters. */
    method Start()
      requires Valid()
      modifies this
      ensures Valid() && Value() == EMPTY_OSC
    {
      raw := [];
      num := 0;
    }

    /** Records the span of the parameter that ends at `idx`, given fewer than 16 are recorded. */
    method CloseParam(idx: nat)
      requires Valid() && num < MAX_OSC_PARAMS && idx == |raw|
      modifies this, spans
      ensures Valid() && Value() == CloseOscParam(old(Value())) && raw == old(raw)
    {
      if num == 0 {
        spans[num] := (0, idx);
      } else {
        var prev := spans[num - 1];
        spans[num] := (prev.1, idx);
      }
      num := num + 1;
      assert spans[..num] == old(spans[..num]) + [(NextSpanBegin(old(spans[..num])), idx)];
    }

    /** `put`. */
    method Put(b: u8)
      requires Valid()
      modifies this, spans
      ensures Valid() && Value() == OscPutByte(old(Value()), b)
    {
      var idx := |raw|;
      if b == PARAM_SEPARATOR {
        if num == MAX_OSC_PARAMS {
          return;
        }
        CloseParam(idx);
      } else if |raw| < MAX_OSC_RAW {
        raw := raw + [b];
      }
    }

    /** `end`: closes the last parameter unless 16 are recorded, then dispatches. */
    method End(b: u8) returns (calls: seq<E.Call>)
      requires Valid()
      modifies this, spans
      ensures Valid() && Value() == CloseOscParam(old(Value()))
      ensures calls == [E.OscDispatch(OscSlices(Value()), b == BEL)]
    {
      var idx := |raw|;
      if num != MAX_OSC_PARAMS {
        CloseParam(idx);
      }
      var call := Dispatch(b);
      calls := [call];
    }

    /** `dispatch`: the slices of the first `params_num` spans, and whether BEL ended the string. */
    method Dispatch(b: u8) returns (call: E.Call)
      requires Valid()
      ensures call == E.OscDispatch(OscSlices(Value()), b == BEL)
    {
      var slices: seq<seq<u8>> := [];
      var i := 0;
      while i < num
        invariant i <= num && |slices| == i
        invariant forall k :: 0 <= k < i ==> slices[k] == raw[spans[k].0..spans[k].1]
      {
        assert spans[..num][i] == spans[i];
        var indices := spans[i];
        slices := slices + [raw[indices.0..indices.1]];
        i := i + 1;
      }
      call := E.OscDispatch(slices, b == BEL);
    }
  }

  /** `for c in s.chars() { executor.print(c) }`. */
  method PrintAll(cs: seq<char>) returns (calls: seq<E.Call>)
    ensures calls == E.Prints(cs)
  {
    calls := [];
    var i := 0;
    while i < |cs|
      invariant i <= |cs| && |calls| == i
      invariant forall k :: 0 <= k < i ==> calls[k] == E.Print(cs[k])
    {
      calls := calls + [E.Print(cs[i])];
      i := i + 1;
    }
  }

  /** `Parser::advance_utf8`. */
  method AdvanceUtf8(bytes: seq<u8>) returns (calls: seq<E.Call>)
    ensures calls == PrintText(bytes)
  {
    match FromUtf8(bytes)
    case Ok(s) =>
      calls := PrintAll(s);
    case Err(upTo) =>
      calls := PrintAll(DecodePrefix(bytes[..upTo]).0);
      calls := calls + [E.Print(REPLACEMENT_CHARACTER)];
  }

  /** `Parser`. */
  class Parser {
    var state: State
    const osc: OscHandler
    const params: Params
    var subparam: u16
    const intermediates: Intermediates
    var ignoring: bool

    ghost function Repr(): set<object>
      reads this
    {
      {this, osc, osc.spans, params, params.slots, intermediates, intermediates.buf}
    }

    ghost predicate Valid()
      reads this, osc, osc.spans, params, params.slots, intermediates, intermediates.buf
    {
      IsParserState(state) && osc.Valid() && params.Valid() && intermediates.Valid()
    }

    function Value(): (v: PState)
      requires Valid()
      reads this, osc, osc.spans, params, params.slots, intermediates, intermediates.buf
      ensures v.Valid()
    {
      PState(state, params.Value(), subparam, intermediates.Slice(), ignoring, osc.Value())
    }

    /** `Parser::new`. */
    constructor()
      ensures Valid() && fresh(Repr()) && Value() == INITIAL
    {
      state := Ground;
      osc := new OscHandler();
      params := new Params();
      subparam := 0;
      intermediates := new Intermediates();
      ignoring := false;
    }

    /** The `Param` action. */
    method ParamAction(b: u8)
      requires Valid()
      modifies this, params, params.slots
      ensures Valid() && state == old(state)
      ensures (params.Value(), subparam, ignoring) == ParamByte(old(params.Value()), old(subparam), old(ignoring), b)
    {
      if params.IsFull() {
        ignoring := true;
      } else if b == PARAM_SEPARATOR {
        SeparatorAction();
      } else if b == SUBPARAM_SEPARATOR {
        params.PushSubparam(subparam);
        subparam := 0;
      } else {
        subparam := SaturatingAddU16(SaturatingMulU16(subparam, 10), DigitValue(b));
      }
    }

    /** The `Param` action on `;`: the digits so far end the current parameter. */
    method SeparatorAction()
      requires Valid() && !params.IsFull()
      modifies this, params, params.slots
      ensures Valid() && state == old(state) && ignoring == old(ignoring) && subparam == 0
      ensures params.Value() == NextParamValue(PushSubparamValue(old(params.Value()), old(subparam)))
    {
      params.PushSubparam(subparam);
      params.NextParam();
      subparam := 0;
    }

    /** The parameter step shared by `Hook` and `CsiDispatch`. */
    method FinishParamsAction()
      requires Valid()
      modifies this, params, params.slots
      ensures Valid() && state == old(state) && subparam == old(subparam)
      ensures (params.Value(), ignoring) == FinishParams(old(params.Value()), old(subparam), old(ignoring))
    {
      if params.IsFull() {
        ignoring := true;
      } else {
        params.PushSubparam(subparam);
        params.NextParam();
      }
    }

    /** The `Collect` action. */
    method CollectAction(b: u8)
      requires Valid()
      modifies this, intermediates, intermediates.buf
      ensures Valid() && state == old(state) && subparam == old(subparam)
      ensures (intermediates.Slice(), ignoring) == CollectByte(old(intermediates.Slice()), old(ignoring), b)
    {
      if intermediates.IsFull() {
        ignoring := true;
      } else {
        intermediates.Push(b);
      }
    }

    /** The `Clear` action. */
    method ClearAction()
      requires Valid()
      modifies this, params, params.slots, intermediates
      ensures Valid() && state == old(state)
      ensures subparam == 0 && params.Value() == EMPTY_PARAMS && !ignoring && intermediates.Slice() == []
    {
      subparam := 0;
      params.Clear();
      ignoring := false;
      intermediates.Clear();
    }

    /** `execute_action`. */
    method ExecuteAction(a: Action, b: u8) returns (calls: seq<E.Call>)
      requires Valid()
      modifies this, osc, osc.spans, params, params.slots, intermediates, intermediates.buf
      ensures Valid() && (Value(), calls) == VteModel.ExecuteAction(old(Value()), a, b)
    {
      if a.Print? || a.Put? || a.Execute? || a.Unhook? || a.EscDispatch? || a.Ignore? {
        calls := OutputAction(a, b);
      } else {
        calls := StateAction(a, b);
      }
    }

    /** The actions that only call the executor and leave the parser as it is. */
    method OutputAction(a: Action, b: u8) returns (calls: seq<E.Call>)
      requires Valid() && (a.Print? || a.Put? || a.Execute? || a.Unhook? || a.EscDispatch? || a.Ignore?)
      ensures VteModel.ExecuteAction(Value(), a, b) == (Value(), calls)
    {
      match a {
        case Print => calls := [E.Print(ByteChar(b))];
        case Put => calls := [E.Put(b)];
        case Execute => calls := [E.Execute(b)];
        case Unhook => calls := [E.Unhook];
        case EscDispatch => calls := [E.EscDispatch(intermediates.Slice(), ignoring, b)];
        case Ignore => calls := [];
      }
    }

    /** The actions that change the parser's accumulators. */
    method StateAction(a: Action, b: u8) returns (calls: seq<E.Call>)
      requires Valid() && !(a.Print? || a.Put? || a.Execute? || a.Unhook? || a.EscDispatch? || a.Ignore?)
      modifies this, osc, osc.spans, params, params.slots, intermediates, intermediates.buf
      ensures Valid() && (Value(), calls) == VteModel.ExecuteAction(old(Value()), a, b)
    {
      if a.OscStart? || a.OscPut? || a.OscEnd? {
        calls := OscAction(a, b);
      } else {
        calls := ParamsAction(a, b);
      }
    }

    /** The actions on the OSC handler. */
    method OscAction(a: Action, b: u8) returns (calls: seq<E.Call>)
      requires Valid() && (a.OscStart? || a.OscPut? || a.OscEnd?)
      modifies osc, osc.spans
      ensures Valid() && (Value(), calls) == VteModel.ExecuteAction(old(Value()), a, b)
    {
      calls := [];
      match a {
        case OscStart => osc.Start();
        case OscPut => osc.Put(b);
        case OscEnd => calls := osc.End(b);
      }
    }

    /** The actions on the parameters, the intermediates and the `ignore` flag. */
    method ParamsAction(a: Action, b: u8) returns (calls: seq<E.Call>)
      requires Valid() && (a.Hook? || a.Param? || a.CsiDispatch? || a.Collect? || a.Clear?)
      modifies this, params, params.slots, intermediates, intermediates.buf
      ensures Valid() && (Value(), calls) == VteModel.ExecuteAction(old(Value()), a, b)
    {
      calls := [];
      match a {
        case Hook => calls := DispatchWithParams(Hook, b);
        case Param => ParamAction(b);
        case CsiDispatch => calls := DispatchWithParams(CsiDispatch, b);
        case Collect => CollectAction(b);
        case Clear => ClearAction();
      }
    }

    /** The `Hook` and `CsiDispatch` actions: close the parameters, then hand them over. */
    method DispatchWithParams(a: Action, b: u8) returns (calls: seq<E.Call>)
      requires Valid() && (a == Hook || a == CsiDispatch)
      modifies this, params, params.slots
      ensures Valid() && (Value(), calls) == VteModel.ExecuteAction(old(Value()), a, b)
    {
      FinishParamsAction();
      if a == Hook {
        calls := [E.Hook(params.Done(), intermediates.Slice(), ignoring, ByteChar(b))];
      } else {
        calls := [E.CsiDispatch(params.Done(), intermediates.Slice(), ignoring, ByteChar(b))];
      }
    }

    /** `execute_state_entry_action`. */
    method EntryAction(b: u8) returns (calls: seq<E.Call>)
      requires Valid()
      modifies this, osc, osc.spans, params, params.slots, intermediates, intermediates.buf
      ensures Valid() && (Value(), calls) == VteModel.EntryAction(old(Value()), b)
    {
      var action := EntryActionOf(state);
      if action.Some? {
        calls := ExecuteAction(action.value, b);
      } else {
        calls := [];
      }
    }

    /** `execute_state_exit_action`. */
    method ExitAction(b: u8) returns (calls: seq<E.Call>)
      requires Valid()
      modifies this, osc, osc.spans, params, params.slots, intermediates, intermediates.buf
      ensures Valid() && (Value(), calls) == VteModel.ExitAction(old(Value()), b)
    {
      var action := ExitActionOf(state);
      if action.Some? {
        calls := ExecuteAction(action.value, b);
      } else {
        calls := [];
      }
    }

    /** `state_change`. */
    method StateChange(target: State, action: Option<Action>, b: u8) returns (calls: seq<E.Call>)
      requires Valid()
      modifies this, osc, osc.spans, params, params.slots, intermediates, intermediates.buf
      ensures Valid() && (Value(), calls) == VteModel.StateChange(old(Value()), target, action, b)
    {
      if target == Anywhere {
        if action.None? {
          return [];
        }
        calls := ExecuteAction(action.value, b);
        return;
      }
      calls := Transit(target, action, b);
    }

    /** `state_change` to a state other than `Anywhere`: exit, action, assignment, entry. */
    method Transit(target: State, action: Option<Action>, b: u8) returns (calls: seq<E.Call>)
      requires Valid() && target != Anywhere
      modifies this, osc, osc.spans, params, params.slots, intermediates, intermediates.buf
      ensures Valid() && (Value(), calls) == VteModel.StateChange(old(Value()), target, action, b)
    {
      ghost var p0 := Value();
      var exitCalls := ExitAction(b);
      ghost var p1 := Value();
      var actionCalls := [];
      if action.Some? {
        actionCalls := ExecuteAction(action.value, b);
      }
      ghost var p2 := Value();
      assert (p2, actionCalls) == if action.Some? then VteModel.ExecuteAction(p1, action.value, b) else (p1, []);
      state := target;
      assert Value() == p2.(state := target);
      var entryCalls := EntryAction(b);
      calls := exitCalls + actionCalls + entryCalls;
    }

    /** `advance_sequence`. */
    method AdvanceSequence(b: u8) returns (calls: seq<E.Call>)
      requires Valid()
      modifies this, osc, osc.spans, params, params.slots, intermediates, intermediates.buf
      ensures Valid() && (Value(), calls) == VteModel.AdvanceSequence(old(Value()), b)
    {
      var change := Transition(state, b);
      if change.None? {
        return [];
      }
      var (target, action) := change.value;
      calls := StateChange(target, action, b);
    }

    /** `in_escape_sequence`. */
    function InEscapeSequence(): (r: bool)
      reads this
      ensures r <==> state != Ground
    {
      state != Ground
    }

    /** One byte of a sequence: `advance_sequence` on `bytes[i]`, one step of `FeedWhileInSequence`. */
    method SequenceStep(bytes: seq<u8>, i: nat) returns (calls: seq<E.Call>)
      requires Valid() && state != Ground && i < |bytes|
      modifies this, osc, osc.spans, params, params.slots, intermediates, intermediates.buf
      ensures Valid()
      ensures FeedWhileInSequence(old(Value()), bytes, i).0 == FeedWhileInSequence(Value(), bytes, i + 1).0
      ensures FeedWhileInSequence(old(Value()), bytes, i).1 == calls + FeedWhileInSequence(Value(), bytes, i + 1).1
      ensures FeedWhileInSequence(old(Value()), bytes, i).2 == FeedWhileInSequence(Value(), bytes, i + 1).2
    {
      calls := AdvanceSequence(bytes[i]);
    }

    /**
     * The loops of `advance` that feed bytes from index `i` to the table
     * while the parser is inside a sequence.
     */
    method FeedSequence(bytes: seq<u8>, start: nat) returns (calls: seq<E.Call>, i: nat)
      requires Valid() && start <= |bytes|
      modifies this, osc, osc.spans, params, params.slots, intermediates, intermediates.buf
      ensures Valid() && (Value(), calls, i) == FeedWhileInSequence(old(Value()), bytes, start)
    {
      ghost var p0 := Value();
      calls := [];
      i := start;
      while InEscapeSequence() && i < |bytes|
        invariant Valid() && start <= i <= |bytes|
        invariant FeedWhileInSequence(p0, bytes, start).0 == FeedWhileInSequence(Value(), bytes, i).0
        invariant FeedWhileInSequence(p0, bytes, start).1 == calls + FeedWhileInSequence(Value(), bytes, i).1
        invariant FeedWhileInSequence(p0, bytes, start).2 == FeedWhileInSequence(Value(), bytes, i).2
        decreases |bytes| - i
      {
        ghost var callsBefore := calls;
        var c := SequenceStep(bytes, i);
        calls := calls + c;
        E.CallsAssociative(callsBefore, c, FeedWhileInSequence(Value(), bytes, i + 1).1);
        i := i + 1;
      }
      FeedWhileStops(Value(), bytes, i);
      assert calls + [] == calls;
    }

    /**
     * One round of the text loop of `advance`: with no C0 byte left, all of
     * `remaining` is text; otherwise the text before the first C0 byte, then
     * the sequence that starts with it.
     */
    method TextRound(remaining: seq<u8>) returns (calls: seq<E.Call>, rest: seq<u8>, done: bool)
      requires Valid() && |remaining| > 0
      modifies this, osc, osc.spans, params, params.slots, intermediates, intermediates.buf
      ensures Valid() && |rest| < |remaining|
      ensures done ==> TextLoop(old(Value()), remaining) == (Value(), calls)
      ensures !done ==> TextLoop(old(Value()), remaining) == (TextLoop(Value(), rest).0, calls + TextLoop(Value(), rest).1)
    {
      var next := C0.FirstIndexOfC0(remaining);
      if next.None? {
        calls := AdvanceUtf8(remaining);
        return calls, [], true;
      }
      var k := next.value;
      var text := AdvanceUtf8(remaining[..k]);
      var sequence := remaining[k..];
      var first := AdvanceSequence(sequence[0]);
      var inner, j := FeedSequence(sequence, 1);
      calls := text + first + inner;
      rest := sequence[j..];
      done := false;
    }

    /** `advance`. */
    method Advance(bytes: seq<u8>) returns (calls: seq<E.Call>)
      requires Valid()
      modifies this, osc, osc.spans, params, params.slots, intermediates, intermediates.buf
      ensures Valid() && (Value(), calls) == VteModel.Advance(old(Value()), bytes)
    {
      ghost var p0 := Value();
      var i;
      calls, i := FeedSequence(bytes, 0);
      var remaining := bytes[i..];
      assert VteModel.Advance(p0, bytes) == (TextLoop(Value(), remaining).0, calls + TextLoop(Value(), remaining).1);
      while |remaining| > 0
        invariant Valid()
        invariant VteModel.Advance(p0, bytes).0 == TextLoop(Value(), remaining).0
        invariant VteModel.Advance(p0, bytes).1 == calls + TextLoop(Value(), remaining).1
        decreases |remaining|
      {
        ghost var callsBefore := calls;
        var c, rest, done := TextRound(remaining);
        calls := calls + c;
        if done {
          return;
        }
        remaining := rest;
        E.CallsAssociative(callsBefore, c, TextLoop(Value(), remaining).1);
      }
      assert TextLoop(Value(), remaining) == (Value(), []);
      assert calls + [] == calls;
    }
  }
}
