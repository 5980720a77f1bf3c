/**
 * swiftty_vte's `Parser` object: the state, swiftty's OSC and intermediate
 * handlers, the parameters and the `ignoring` flag, updated in place one
 * byte per `advance`. Every method is proved against the value-level
 * definitions of `SwifttyModel`.
 */
module SwifttyVte {
  import opened Common
  import opened Table
  import opened VteParams
  import V = VteModel
  import SwifttyOsc
  import SwifttyIntermediate
  import SM = SwifttyModel
  import E = Executor

  class Parser {
    var state: State
    const osc: SwifttyOsc.Handler
    const params: Params
    var subparam: u16
    const intermediates: SwifttyIntermediate.Handler
    var ignoring: bool

    ghost function Repr(): set<object>
      reads this
    {
      {this, osc, osc.params, params, params.slots, intermediates, intermediates.bytes}
    }

    ghost predicate Valid()
      reads this, osc, osc.params, params, params.slots, intermediates, intermediates.bytes
    {
      IsParserState(state) && osc.Valid() && params.Valid() && intermediates.Valid()
    }

    function Value(): (v: SM.SState)
      requires Valid()
      reads this, osc, osc.params, params, params.slots, intermediates, intermediates.bytes
      ensures v.Valid()
    {
      SM.SState(state, params.Value(), subparam, intermediates.AsSlice(), ignoring, osc.Value())
    }

    /** `Parser::new`, the derived default. */
    constructor()
      ensures Valid() && fresh(Repr()) && Value() == SM.INITIAL
    {
      state := Ground;
      osc := new SwifttyOsc.Handler();
      params := new Params();
      subparam := 0;
      intermediates := new SwifttyIntermediate.Handler();
      ignoring := false;
    }

    /** The `Param` action. */
    method ParamAction(b: u8)
      requires Valid()
      modifies this, params, params.slots
      ensures Valid() && state == old(state)
      ensures (params.Value(), subparam, ignoring) == V.ParamByte(old(params.Value()), old(subparam), old(ignoring), b)
    {
      if params.IsFull() {
        ignoring := true;
        return;
      }
      if b == PARAM_SEPARATOR {
        params.PushSubparam(subparam);
        params.NextParam();
        subparam := 0;
      } else if b == SUBPARAM_SEPARATOR {
        params.PushSubparam(subparam);
        subparam := 0;
      } else {
        subparam := SaturatingMulU16(subparam, 10);
        subparam := SaturatingAddU16(subparam, V.DigitValue(b));
      }
    }

    /** The parameter step shared by `Hook` and `CsiDispatch`. */
    method FinishParamsAction()
      requires Valid()
      modifies this, params, params.slots
      ensures Valid() && state == old(state) && subparam == old(subparam)
      ensures (params.Value(), ignoring) == V.FinishParams(old(params.Value()), old(subparam), old(ignoring))
    {
      if params.IsFull() {
        ignoring := true;
      } else {
        params.PushSubparam(subparam);
        params.NextParam();
      }
    }

    /** The `Collect` action. */
    method CollectAction(b: u8)
      requires Valid()
      modifies this, intermediates, intermediates.bytes
      ensures Valid() && state == old(state) && subparam == old(subparam)
      ensures (intermediates.AsSlice(), ignoring) == V.CollectByte(old(intermediates.AsSlice()), old(ignoring), b)
    {
      if intermediates.IsFull() {
        ignoring := true;
      } else {
        intermediates.Push(b);
      }
    }

    /** The `Clear` action. */
    method ClearAction()
      requires Valid()
      modifies this, params, params.slots, intermediates
      ensures Valid() && state == old(state)
      ensures subparam == 0 && params.Value() == EMPTY_PARAMS && !ignoring && intermediates.AsSlice() == []
    {
      subparam := 0;
      params.Clear();
      ignoring := false;
      intermediates.Clear();
    }

    /** `execute_action`. */
    method ExecuteAction(a: Action, b: u8) returns (calls: seq<E.Call>)
      requires Valid()
      modifies this, osc, osc.params, params, params.slots, intermediates, intermediates.bytes
      ensures Valid() && (Value(), calls) == SM.ExecuteAction(old(Value()), a, b)
    {
      if a.Print? || a.Put? || a.Execute? || a.Unhook? || a.EscDispatch? || a.Ignore? {
        calls := OutputAction(a, b);
      } else if a.OscStart? || a.OscPut? || a.OscEnd? {
        calls := OscAction(a, b);
      } else {
        calls := ParamsAction(a, b);
      }
    }

    /** The actions that only call the executor. */
    method OutputAction(a: Action, b: u8) returns (calls: seq<E.Call>)
      requires Valid() && (a.Print? || a.Put? || a.Execute? || a.Unhook? || a.EscDispatch? || a.Ignore?)
      ensures SM.ExecuteAction(Value(), a, b) == (Value(), calls)
    {
      match a {
        case Print => calls := [E.Print(ByteChar(b))];
        case Put => calls := [E.Put(b)];
        case Execute => calls := [E.Execute(b)];
        case Unhook => calls := [E.Unhook];
        case EscDispatch => calls := [E.EscDispatch(intermediates.AsSlice(), ignoring, b)];
        case Ignore => calls := [];
      }
    }

    /** The actions on the OSC handler. */
    method OscAction(a: Action, b: u8) returns (calls: seq<E.Call>)
      requires Valid() && (a.OscStart? || a.OscPut? || a.OscEnd?)
      modifies osc, osc.params
      ensures Valid() && (Value(), calls) == SM.ExecuteAction(old(Value()), a, b)
    {
      calls := [];
      match a {
        case OscStart => osc.Start();
        case OscPut => osc.Put(b);
        case OscEnd =>
          var call := osc.End(b);
          calls := [call];
      }
    }

    /** The actions on the parameters, the intermediates and the `ignoring` flag. */
    method ParamsAction(a: Action, b: u8) returns (calls: seq<E.Call>)
      requires Valid() && (a.Hook? || a.Param? || a.CsiDispatch? || a.Collect? || a.Clear?)
      modifies this, params, params.slots, intermediates, intermediates.bytes
      ensures Valid() && (Value(), calls) == SM.ExecuteAction(old(Value()), a, b)
    {
      calls := [];
      match a {
        case Hook => calls := DispatchWithParams(Hook, b);
        case Param => ParamAction(b);
        case CsiDispatch => calls := DispatchWithParams(CsiDispatch, b);
        case Collect => CollectAction(b);
        case Clear => ClearAction();
      }
    }

    /** The `Hook` and `CsiDispatch` actions: close the parameters, then hand them over. */
    method DispatchWithParams(a: Action, b: u8) returns (calls: seq<E.Call>)
      requires Valid() && (a == Hook || a == CsiDispatch)
      modifies this, params, params.slots
      ensures Valid() && (Value(), calls) == SM.ExecuteAction(old(Value()), a, b)
    {
      FinishParamsAction();
      if a == Hook {
        calls := [E.Hook(params.Done(), intermediates.AsSlice(), ignoring, ByteChar(b))];
      } else {
        calls := [E.CsiDispatch(params.Done(), intermediates.AsSlice(), ignoring, ByteChar(b))];
      }
    }

    /** `execute_state_entry_action`. */
    method EntryAction(b: u8) returns (calls: seq<E.Call>)
      requires Valid()
      modifies this, osc, osc.params, params, params.slots, intermediates, intermediates.bytes
      ensures Valid() && (Value(), calls) == SM.EntryAction(old(Value()), b)
    {
      var action := EntryActionOf(state);
      if action.Some? {
        calls := ExecuteAction(action.value, b);
      } else {
        calls := [];
      }
    }

    /** `execute_state_exit_action`. */
    method ExitAction(b: u8) returns (calls: seq<E.Call>)
      requires Valid()
      modifies this, osc, osc.params, params, params.slots, intermediates, intermediates.bytes
      ensures Valid() && (Value(), calls) == SM.ExitAction(old(Value()), b)
    {
      var action := ExitActionOf(state);
      if action.Some? {
        calls := ExecuteAction(action.value, b);
      } else {
        calls := [];
      }
    }

    /** `state_change`. */
    method StateChange(target: State, action: Option<Action>, b: u8) returns (calls: seq<E.Call>)
      requires Valid() && (IsParserState(target) || action.Some?)
      modifies this, osc, osc.params, params, params.slots, intermediates, intermediates.bytes
      ensures Valid() && (Value(), calls) == SM.StateChange(old(Value()), target, action, b)
    {
      if target == Anywhere && action.Some? {
        calls := ExecuteAction(action.value, b);
        return;
      }
      calls := Transit(target, action, b);
    }

    /** `state_change` other than an action in place: exit, action, assignment, entry. */
    method Transit(target: State, action: Option<Action>, b: u8) returns (calls: seq<E.Call>)
      requires Valid() && IsParserState(target)
      modifies this, osc, osc.params, params, params.slots, intermediates, intermediates.bytes
      ensures Valid() && (Value(), calls) == SM.StateChange(old(Value()), target, action, b)
    {
      var exitCalls := ExitAction(b);
      ghost var p1 := Value();
      var actionCalls := [];
      if action.Some? {
        actionCalls := ExecuteAction(action.value, b);
      }
      ghost var p2 := Value();
      assert (p2, actionCalls) == if action.Some? then SM.ExecuteAction(p1, action.value, b) else (p1, []);
      state := target;
      assert Value() == p2.(state := target);
      var entryCalls := EntryAction(b);
      calls := exitCalls + actionCalls + entryCalls;
    }

    /**
     * `advance`: the Anywhere row, then the row of the current state. A
     * byte with an entry in neither fails the `expect`: that panics, and
     * the parser is left as it was.
     */
    method Advance(b: u8) returns (calls: seq<E.Call>, panicked: bool)
      requires Valid()
      modifies this, osc, osc.params, params, params.slots, intermediates, intermediates.bytes
      ensures Valid() && (panicked <==> !SM.Known(old(state), b))
      ensures panicked ==> Value() == old(Value())
      ensures !panicked ==> (Value(), calls) == SM.Advance(old(Value()), b)
    {
      var change := ChangeState(Anywhere, b);
      if change.None? {
        change := ChangeState(state, b);
      }
      assert change == Transition(state, b);
      if change.None? {
        return [], true;
      }
      var (target, action) := change.value;
      TargetIsParserStateOrCarriesAction(state, b, target, action);
      calls := StateChange(target, action, b);
      panicked := false;
    }

    /** `in_escape_sequence`. */
    function InEscapeSequence(): (r: bool)
      reads this
      ensures r <==> state != Ground
    {
      state != Ground
    }
  }
}
