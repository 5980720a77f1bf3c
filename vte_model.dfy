/**
 * The saiga_vte `Parser` as a value: its state, what each table action does
 * to it, and what `advance` does to a whole slice of bytes. The methods of
 * `Vte.Parser` are proved against these functions, and the properties of
 * the parser are proved about them.
 */
module VteModel {
  import opened Common
  import opened Table
  import opened VteParams
  import opened Utf8Decode
  import C0
  import E = Executor

  const MAX_INTERMEDIATES: nat := 2
  const MAX_OSC_PARAMS: nat := 16
  const MAX_OSC_RAW: nat := 1024
  const BEL: u8 := 0x07

  /**
   * The (begin, end) spans of the finished OSC parameters: each lies within
   * the first `limit` raw bytes, the first begins at 0 and each begins where
   * the previous one ended.
   */
  predicate Contiguous(spans: seq<(nat, nat)>, limit: nat)
  {
    (forall i :: 0 <= i < |spans| ==> spans[i].0 <= spans[i].1 <= limit)
    && (|spans| > 0 ==> spans[0].0 == 0)
    && (forall i :: 0 < i < |spans| ==> spans[i].0 == spans[i - 1].1)
  }

  /** The observable content of an `OscHandler`: the first `params_num` spans and the raw bytes. */
  datatype OscValue = OscValue(spans: seq<(nat, nat)>, raw: seq<u8>)
  {
    ghost predicate Valid()
    {
      |spans| <= MAX_OSC_PARAMS && |raw| <= MAX_OSC_RAW && Contiguous(spans, |raw|)
    }
  }

  const EMPTY_OSC: OscValue := OscValue([], [])

  /** Where the next span begins: 0 for the first, else the end of the previous one. */
  function NextSpanBegin(spans: seq<(nat, nat)>): nat
  {
    if |spans| == 0 then 0 else spans[|spans| - 1].1
  }

  /** Closes the current OSC parameter at the end of `raw`, unless 16 are recorded. */
  function CloseOscParam(o: OscValue): (r: OscValue)
    requires o.Valid()
    ensures r.Valid() && r.raw == o.raw
  {
    if |o.spans| == MAX_OSC_PARAMS then o
    else
      assert |o.spans| > 0 ==> o.spans[|o.spans| - 1].1 <= |o.raw|;
      o.(spans := o.spans + [(NextSpanBegin(o.spans), |o.raw|)])
  }

  /** `OscHandler::put`: a separator closes a parameter; any other byte is stored while there is room. */
  function OscPutByte(o: OscValue, b: u8): (r: OscValue)
    requires o.Valid()
    ensures r.Valid()
  {
    if b == PARAM_SEPARATOR then CloseOscParam(o)
    else if |o.raw| < MAX_OSC_RAW then o.(raw := o.raw + [b])
    else o
  }

  /** The parameter slices `dispatch` hands to `osc_dispatch`. */
  function OscSlices(o: OscValue): (r: seq<seq<u8>>)
    requires o.Valid()
    ensures |r| == |o.spans|
    ensures forall i :: 0 <= i < |r| ==> r[i] == o.raw[o.spans[i].0..o.spans[i].1]
  {
    seq(|o.spans|, i requires 0 <= i < |o.spans| => o.raw[o.spans[i].0..o.spans[i].1])
  }

  /** The observable state of a `Parser`. */
  datatype PState = PState(
    state: State,
    params: ParamsValue,
    subparam: u16,
    intermediates: seq<u8>,
    ignoring: bool,
    osc: OscValue)
  {
    ghost predicate Valid()
    {
      IsParserState(state) && params.Valid() && |intermediates| <= MAX_INTERMEDIATES && osc.Valid()
    }
  }

  /** `Parser::new`. */
  const INITIAL: PState := PState(Ground, EMPTY_PARAMS, 0, [], false, EMPTY_OSC)

  /** A digit's value: `byte - b'0'` (wrapping, as `u8` subtraction does in a release build). */
  function DigitValue(b: u8): u16
  {
    (b - 0x30) % 0x100
  }

  /** The `Param` action on the parameter accumulator: (params, subparam, ignoring). */
  function ParamByte(params: ParamsValue, subparam: u16, ignoring: bool, b: u8): (r: (ParamsValue, u16, bool))
    requires params.Valid()
    ensures r.0.Valid()
  {
    if params.IsFull() then (params, subparam, true)
    else if b == PARAM_SEPARATOR then (NextParamValue(PushSubparamValue(params, subparam)), 0, ignoring)
    else if b == SUBPARAM_SEPARATOR then (PushSubparamValue(params, subparam), 0, ignoring)
    else (params, SaturatingAddU16(SaturatingMulU16(subparam, 10), DigitValue(b)), ignoring)
  }

  /** What `Hook` and `CsiDispatch` do before dispatching: close the last parameter, or flag overflow. */
  function FinishParams(params: ParamsValue, subparam: u16, ignoring: bool): (r: (ParamsValue, bool))
    requires params.Valid()
    ensures r.0.Valid()
  {
    if params.IsFull() then (params, true)
    else (NextParamValue(PushSubparamValue(params, subparam)), ignoring)
  }

  /** The `Collect` action: store an intermediate while fewer than two are stored, else flag overflow. */
  function CollectByte(intermediates: seq<u8>, ignoring: bool, b: u8): (r: (seq<u8>, bool))
    requires |intermediates| <= MAX_INTERMEDIATES
    ensures |r.0| <= MAX_INTERMEDIATES
  {
    if |intermediates| == MAX_INTERMEDIATES then (intermediates, true) else (intermediates + [b], ignoring)
  }

  /** `execute_action`: the new parser state and the executor calls made. */
  function ExecuteAction(p: PState, a: Action, b: u8): (r: (PState, seq<E.Call>))
    requires p.Valid()
    ensures r.0.Valid() && r.0.state == p.state
  {
    match a
    case Print => (p, [E.Print(ByteChar(b))])
    case Put => (p, [E.Put(b)])
    case Execute => (p, [E.Execute(b)])
    case OscStart => (p.(osc := EMPTY_OSC), [])
    case OscPut => (p.(osc := OscPutByte(p.osc, b)), [])
    case OscEnd =>
      var o := CloseOscParam(p.osc);
      (p.(osc := o), [E.OscDispatch(OscSlices(o), b == BEL)])
    case Hook =>
      var (params, ignoring) := FinishParams(p.params, p.subparam, p.ignoring);
      (p.(params := params, ignoring := ignoring), [E.Hook(params.done, p.intermediates, ignoring, ByteChar(b))])
    case Unhook => (p, [E.Unhook])
    case Param =>
      var (params, subparam, ignoring) := ParamByte(p.params, p.subparam, p.ignoring, b);
      (p.(params := params, subparam := subparam, ignoring := ignoring), [])
    case CsiDispatch =>
      var (params, ignoring) := FinishParams(p.params, p.subparam, p.ignoring);
      (p.(params := params, ignoring := ignoring), [E.CsiDispatch(params.done, p.intermediates, ignoring, ByteChar(b))])
    case Collect =>
      var (intermediates, ignoring) := CollectByte(p.intermediates, p.ignoring, b);
      (p.(intermediates := intermediates, ignoring := ignoring), [])
    case EscDispatch => (p, [E.EscDispatch(p.intermediates, p.ignoring, b)])
    case Clear => (p.(subparam := 0, params := EMPTY_PARAMS, ignoring := false, intermediates := []), [])
    case Ignore => (p, [])
  }

  /** `execute_state_entry_action`, run after the new state is assigned. */
  function EntryAction(p: PState, b: u8): (r: (PState, seq<E.Call>))
    requires p.Valid()
    ensures r.0.Valid() && r.0.state == p.state
  {
    match EntryActionOf(p.state)
    case Some(a) => ExecuteAction(p, a, b)
    case None => (p, [])
  }

  /** `execute_state_exit_action`, run while still in the old state. */
  function ExitAction(p: PState, b: u8): (r: (PState, seq<E.Call>))
    requires p.Valid()
    ensures r.0.Valid() && r.0.state == p.state
  {
    match ExitActionOf(p.state)
    case Some(a) => ExecuteAction(p, a, b)
    case None => (p, [])
  }

  /**
   * `state_change`: a target of Anywhere runs the action in place; any
   * other target runs exit action, transition action, assignment and entry
   * action, in that order.
   */
  function StateChange(p: PState, target: State, action: Option<Action>, b: u8): (r: (PState, seq<E.Call>))
    requires p.Valid()
    ensures r.0.Valid()
    ensures r.0.state == if target == Anywhere then p.state else target
  {
    if target == Anywhere then
      if action.None? then (p, []) else ExecuteAction(p, action.value, b)
    else
      var (p1, exitCalls) := ExitAction(p, b);
      var (p2, actionCalls) := if action.Some? then ExecuteAction(p1, action.value, b) else (p1, []);
      var (p3, entryCalls) := EntryAction(p2.(state := target), b);
      (p3, exitCalls + actionCalls + entryCalls)
  }

  /** `advance_sequence`: one byte through the table; a byte without an entry does nothing. */
  function AdvanceSequence(p: PState, b: u8): (r: (PState, seq<E.Call>))
    requires p.Valid()
    ensures r.0.Valid()
  {
    match Transition(p.state, b)
    case None => (p, [])
    case Some((target, action)) => StateChange(p, target, action, b)
  }

  /** Every byte of `bytes` through the table, one at a time. */
  function Feed(p: PState, bytes: seq<u8>): (r: (PState, seq<E.Call>))
    requires p.Valid()
    ensures r.0.Valid()
    decreases |bytes|
  {
    if |bytes| == 0 then (p, [])
    else
      var (p1, c1) := AdvanceSequence(p, bytes[0]);
      var (p2, c2) := Feed(p1, bytes[1..]);
      (p2, c1 + c2)
  }

  /**
   * The byte loops of `advance`: from index `i`, feed bytes to the table
   * while the parser is inside a sequence. Returns the index reached.
   */
  function FeedWhileInSequence(p: PState, bytes: seq<u8>, i: nat): (r: (PState, seq<E.Call>, nat))
    requires p.Valid() && i <= |bytes|
    ensures r.0.Valid() && i <= r.2 <= |bytes|
    ensures r.2 < |bytes| ==> r.0.state == Ground
    ensures p.state == Ground ==> r == (p, [], i)
    decreases |bytes| - i
  {
    if p.state != Ground && i < |bytes| then
      var (p1, c1) := AdvanceSequence(p, bytes[i]);
      var (p2, c2, j) := FeedWhileInSequence(p1, bytes, i + 1);
      (p2, c1 + c2, j)
    else (p, [], i)
  }

  /** Feeding stops once the parser is back in the ground state or the bytes run out. */
  lemma FeedWhileStops(p: PState, bytes: seq<u8>, i: nat)
    requires p.Valid() && i <= |bytes| && (p.state == Ground || i == |bytes|)
    ensures FeedWhileInSequence(p, bytes, i) == (p, [], i)
  {
  }

  /**
   * `advance_utf8`: the scalar values of the text, or, when it is not
   * valid UTF-8, those of its longest valid prefix followed by one U+FFFD.
   */
  function PrintText(bytes: seq<u8>): (calls: seq<E.Call>)
  {
    match FromUtf8(bytes)
    case Ok(cs) => E.Prints(cs)
    case Err(upTo) => E.Prints(DecodePrefix(bytes[..upTo]).0) + [E.Print(REPLACEMENT_CHARACTER)]
  }

  /**
   * The outer loop of `advance` over `remaining`: the text up to the next
   * C0 byte goes to `advance_utf8`, then the C0 byte and what follows it go
   * to the table until the parser is back in the ground state.
   */
  function TextLoop(p: PState, remaining: seq<u8>): (r: (PState, seq<E.Call>))
    requires p.Valid()
    ensures r.0.Valid()
    decreases |remaining|
  {
    if |remaining| == 0 then (p, [])
    else match C0.FirstIndexOfC0(remaining)
      case None => (p, PrintText(remaining))
      case Some(k) =>
        var rest := remaining[k..];
        var (p1, c1) := AdvanceSequence(p, rest[0]);
        var (p2, c2, j) := FeedWhileInSequence(p1, rest, 1);
        var (p3, c3) := TextLoop(p2, rest[j..]);
        (p3, PrintText(remaining[..k]) + c1 + c2 + c3)
  }

  /** `Parser::advance`. */
  function Advance(p: PState, bytes: seq<u8>): (r: (PState, seq<E.Call>))
    requires p.Valid()
    ensures r.0.Valid()
  {
    var (p1, c1, i) := FeedWhileInSequence(p, bytes, 0);
    var (p2, c2) := TextLoop(p1, bytes[i..]);
    (p2, c1 + c2)
  }

  /**
   * The outer loop of `advance` as the transition table implies it: the
   * text stops at every byte of `ALL_WITH_NAK`, NAK included, and is
   * otherwise `TextLoop`.
   */
  function CorrectedTextLoop(p: PState, remaining: seq<u8>): (r: (PState, seq<E.Call>))
    requires p.Valid()
    ensures r.0.Valid()
    decreases |remaining|
  {
    if |remaining| == 0 then (p, [])
    else match C0.FirstIndexIn(remaining, C0.ALL_WITH_NAK)
      case None => (p, PrintText(remaining))
      case Some(k) =>
        var rest := remaining[k..];
        var (p1, c1) := AdvanceSequence(p, rest[0]);
        var (p2, c2, j) := FeedWhileInSequence(p1, rest, 1);
        var (p3, c3) := CorrectedTextLoop(p2, rest[j..]);
        (p3, PrintText(remaining[..k]) + c1 + c2 + c3)
  }

  /** `Parser::advance` over the corrected C0 set. */
  function CorrectedAdvance(p: PState, bytes: seq<u8>): (r: (PState, seq<E.Call>))
    requires p.Valid()
    ensures r.0.Valid()
  {
    var (p1, c1, i) := FeedWhileInSequence(p, bytes, 0);
    var (p2, c2) := CorrectedTextLoop(p1, bytes[i..]);
    (p2, c1 + c2)
  }
}
