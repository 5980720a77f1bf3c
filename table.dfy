/**
 * The state transition table of Paul Williams' DEC ANSI parser
 * (vt100.net/emu/dec_ansi_parser), changed so that a colon inside a CSI
 * sequence separates sub-parameters instead of sending the sequence to
 * CsiIgnore.
 */
module Table {
  import opened Common

  datatype State =
    | Anywhere
    | Ground
    | Escape
    | EscapeIntermediate
    | CsiEntry
    | CsiParam
    | CsiIntermediate
    | CsiIgnore
    | DcsEntry
    | DcsParam
    | DcsIntermediate
    | DcsPassthrough
    | DcsIgnore
    | OscString
    | SosPmApcString

  datatype Action =
    | Clear
    | Collect
    | CsiDispatch
    | EscDispatch
    | Execute
    | Hook
    | Ignore
    | OscEnd
    | OscPut
    | OscStart
    | Param
    | Print
    | Put
    | Unhook

  /**
   * The action `execute_state_entry_action` runs on entering a state: the
   * three states that begin a sequence clear the accumulators, an OSC
   * string starts the OSC handler and DCS passthrough hooks.
   */
  function EntryActionOf(s: State): (r: Option<Action>)
    ensures r.Some? <==> s in {CsiEntry, DcsEntry, Escape, OscString, DcsPassthrough}
    ensures r.Some? ==> r.value in {Clear, OscStart, Hook}
  {
    match s
    case CsiEntry => Some(Clear)
    case DcsEntry => Some(Clear)
    case Escape => Some(Clear)
    case OscString => Some(OscStart)
    case DcsPassthrough => Some(Hook)
    case _ => None
  }

  /** The action `execute_state_exit_action` runs on leaving a state: DCS passthrough unhooks, an OSC string ends. */
  function ExitActionOf(s: State): (r: Option<Action>)
    ensures r.Some? <==> s in {DcsPassthrough, OscString}
    ensures r.Some? ==> r.value in {Unhook, OscEnd}
  {
    match s
    case DcsPassthrough => Some(Unhook)
    case OscString => Some(OscEnd)
    case _ => None
  }

  /** The C0 controls every state row handles itself: 0x00-0x17, 0x19, 0x1C-0x1F. */
  predicate IsRowControl(b: u8)
  {
    b <= 0x17 || b == 0x19 || (0x1C <= b && b <= 0x1F)
  }

  /** `change_state`: the row of `state` at `byte`, or None where the row has no entry. */
  function ChangeState(state: State, b: u8): Option<(State, Option<Action>)>
  {
    match state
    case Anywhere =>
      if b == 0x18 || b == 0x1A || (0x80 <= b && b <= 0x8F) || (0x91 <= b && b <= 0x97) || b == 0x99 || b == 0x9A then
        Some((Ground, Some(Execute)))
      else if b == 0x9C then Some((Ground, None))
      else if b == 0x1B then Some((Escape, None))
      else if b == 0x98 || b == 0x9E || b == 0x9F then Some((SosPmApcString, None))
      else if b == 0x90 then Some((DcsEntry, None))
      else if b == 0x9D then Some((OscString, None))
      else if b == 0x9B then Some((CsiEntry, None))
      else None
    case Ground =>
      if IsRowControl(b) then Some((Anywhere, Some(Execute)))
      else if 0x20 <= b <= 0x7F then Some((Anywhere, Some(Print)))
      else None
    case Escape =>
      if IsRowControl(b) then Some((Anywhere, Some(Execute)))
      else if b == 0x7F then Some((Anywhere, Some(Ignore)))
      else if b == 0x5D then Some((OscString, None))
      else if b == 0x50 then Some((DcsEntry, None))
      else if b == 0x5B then Some((CsiEntry, None))
      else if b == 0x58 || b == 0x5E || b == 0x5F then Some((SosPmApcString, None))
      else if 0x20 <= b <= 0x2F then Some((EscapeIntermediate, Some(Collect)))
      else if (0x30 <= b <= 0x4F) || (0x51 <= b <= 0x57) || b == 0x59 || b == 0x5A || b == 0x5C || (0x60 <= b <= 0x7E) then
        Some((Ground, Some(EscDispatch)))
      else None
    case EscapeIntermediate =>
      if IsRowControl(b) then Some((Anywhere, Some(Execute)))
      else if 0x20 <= b <= 0x2F then Some((Anywhere, Some(Collect)))
      else if b == 0x7F then Some((Anywhere, Some(Ignore)))
      else if 0x30 <= b <= 0x7E then Some((Ground, Some(EscDispatch)))
      else None
    case CsiEntry =>
      if IsRowControl(b) then Some((Anywhere, Some(Execute)))
      else if b == 0x7F then Some((Anywhere, Some(Ignore)))
      else if 0x20 <= b <= 0x2F then Some((CsiIntermediate, Some(Collect)))
      else if 0x40 <= b <= 0x7E then Some((Ground, Some(CsiDispatch)))
      else if 0x30 <= b <= 0x3B then Some((CsiParam, Some(Param)))
      else if 0x3C <= b <= 0x3F then Some((CsiParam, Some(Collect)))
      else None
    case CsiParam =>
      if IsRowControl(b) then Some((Anywhere, Some(Execute)))
      else if 0x30 <= b <= 0x3B then Some((Anywhere, Some(Param)))
      else if b == 0x7F then Some((Anywhere, Some(Ignore)))
      else if 0x3C <= b <= 0x3F then Some((CsiIgnore, None))
      else if 0x20 <= b <= 0x2F then Some((CsiIntermediate, None))
      else if 0x40 <= b <= 0x7E then Some((Ground, Some(CsiDispatch)))
      else None
    case CsiIntermediate =>
      if IsRowControl(b) then Some((Anywhere, Some(Execute)))
      else if 0x20 <= b <= 0x2F then Some((Anywhere, Some(Collect)))
      else if b == 0x7F then Some((Anywhere, Some(Ignore)))
      else if 0x30 <= b <= 0x3F then Some((CsiIgnore, None))
      else if 0x40 <= b <= 0x7E then Some((Ground, Some(CsiDispatch)))
      else None
    case CsiIgnore =>
      if IsRowControl(b) then Some((Anywhere, Some(Execute)))
      else if (0x20 <= b <= 0x3F) || b == 0x7F then Some((Anywhere, Some(Ignore)))
      else if 0x40 <= b <= 0x7E then Some((Ground, None))
      else None
    case DcsEntry =>
      if IsRowControl(b) || b == 0x7F then Some((Anywhere, Some(Ignore)))
      else if 0x20 <= b <= 0x2F then Some((DcsIntermediate, Some(Collect)))
      else if (0x30 <= b <= 0x39) || b == 0x3B then Some((DcsParam, Some(Param)))
      else if 0x3C <= b <= 0x3F then Some((DcsParam, Some(Collect)))
      else if 0x40 <= b <= 0x7E then Some((DcsPassthrough, None))
      else if b == 0x3A then Some((DcsIgnore, None))
      else None
    case DcsParam =>
      if IsRowControl(b) || b == 0x7F then Some((Anywhere, Some(Ignore)))
      else if (0x30 <= b <= 0x39) || b == 0x3B then Some((Anywhere, Some(Param)))
      else if b == 0x3A || (0x3C <= b <= 0x3F) then Some((DcsIgnore, None))
      else if 0x20 <= b <= 0x2F then Some((DcsIntermediate, Some(Collect)))
      else if 0x40 <= b <= 0x7E then Some((DcsPassthrough, None))
      else None
    case DcsIntermediate =>
      if IsRowControl(b) || b == 0x7F then Some((Anywhere, Some(Ignore)))
      else if 0x20 <= b <= 0x2F then Some((Anywhere, Some(Collect)))
      else if 0x30 <= b <= 0x3F then Some((DcsIgnore, None))
      else if 0x40 <= b <= 0x7E then Some((DcsPassthrough, None))
      else None
    case DcsPassthrough =>
      if IsRowControl(b) || (0x20 <= b <= 0x7E) then Some((Anywhere, Some(Put)))
      else if b == 0x7F then Some((Anywhere, Some(Ignore)))
      else if b == 0x9C then Some((Ground, None))
      else None
    case DcsIgnore =>
      if IsRowControl(b) || (0x20 <= b <= 0x7F) then Some((Anywhere, Some(Ignore)))
      else if b == 0x9C then Some((Ground, None))
      else None
    case OscString =>
      if b == 0x07 then Some((Ground, None))
      else if b <= 0x06 || (0x08 <= b <= 0x17) || b == 0x19 || (0x1C <= b <= 0x1F) then Some((Anywhere, Some(Ignore)))
      else if 0x20 <= b then Some((Anywhere, Some(OscPut)))
      else None
    case SosPmApcString =>
      if IsRowControl(b) || (0x20 <= b <= 0x7F) then Some((Anywhere, Some(Ignore)))
      else if b == 0x9C then Some((Ground, None))
      else None
  }

  /**
   * The lookup both parsers perform for one byte: the Anywhere row first,
   * then the row of the current state.
   */
  function Transition(state: State, b: u8): Option<(State, Option<Action>)>
  {
    match ChangeState(Anywhere, b)
    case Some(t) => Some(t)
    case None => ChangeState(state, b)
  }

  /** A state the parser can be in; Anywhere is only a pseudo-state of the table. */
  predicate IsParserState(s: State)
  {
    s != Anywhere
  }

  /**
   * The lookup has an entry exactly for the 7-bit and C1 bytes, in every
   * state but OscString, which accepts every byte. Bytes 0xA0-0xFF outside
   * an OSC string have no entry.
   */
  lemma TransitionDefinedIff(s: State, b: u8)
    requires IsParserState(s)
    ensures Transition(s, b).Some? <==> (b < 0xA0 || s == OscString)
  {
  }

  /** A transition never moves the parser into the Anywhere pseudo-state without an action. */
  lemma TargetIsParserStateOrCarriesAction(s: State, b: u8, t: State, a: Option<Action>)
    requires Transition(s, b) == Some((t, a))
    ensures IsParserState(t) || a.Some?
  {
  }

  /** `put` into the OSC string is always an action in place, never part of a state change. */
  lemma PutIsInPlace(s: State, b: u8, t: State)
    requires Transition(s, b) == Some((t, Some(OscPut)))
    ensures t == Anywhere
  {
  }

  /** ESC starts an escape sequence from every state, CAN and SUB abort to the ground state. */
  lemma EscapeCancelSubFromAnywhere(s: State)
    ensures Transition(s, 0x1B) == Some((Escape, None))
    ensures Transition(s, 0x18) == Some((Ground, Some(Execute)))
    ensures Transition(s, 0x1A) == Some((Ground, Some(Execute)))
  {
  }

  /** The 8-bit introducers DCS, CSI, OSC and ST act from every state. */
  lemma C1IntroducersFromAnywhere(s: State)
    ensures Transition(s, 0x90) == Some((DcsEntry, None))
    ensures Transition(s, 0x9B) == Some((CsiEntry, None))
    ensures Transition(s, 0x9D) == Some((OscString, None))
    ensures Transition(s, 0x9C) == Some((Ground, None))
  {
  }

  /** In the ground state a C0 control is executed (CAN and SUB through the Anywhere row) and every other 7-bit byte is printed. */
  lemma GroundRow(b: u8)
    requires b < 0x80
    ensures Transition(Ground, b) ==
      if b == 0x1B then Some((Escape, None))
      else if b == 0x18 || b == 0x1A then Some((Ground, Some(Execute)))
      else if b < 0x20 then Some((Anywhere, Some(Execute)))
      else Some((Anywhere, Some(Print)))
  {
  }

  /** A final byte 0x40-0x7E ends a CSI sequence: dispatched unless the sequence is being ignored. */
  lemma CsiFinalByte(s: State, b: u8)
    requires s == CsiEntry || s == CsiParam || s == CsiIntermediate || s == CsiIgnore
    requires 0x40 <= b <= 0x7E
    ensures Transition(s, b) == if s == CsiIgnore then Some((Ground, None)) else Some((Ground, Some(CsiDispatch)))
  {
  }

  /**
   * A colon is a parameter byte inside CSI (sub-parameter separator), but
   * sends a DCS sequence to DcsIgnore.
   */
  lemma ColonInCsiAndDcs()
    ensures Transition(CsiEntry, 0x3A) == Some((CsiParam, Some(Param)))
    ensures Transition(CsiParam, 0x3A) == Some((Anywhere, Some(Param)))
    ensures Transition(DcsEntry, 0x3A) == Some((DcsIgnore, None))
    ensures Transition(DcsParam, 0x3A) == Some((DcsIgnore, None))
  {
  }

  /** Inside an OSC string BEL terminates and every byte from 0x20 on outside C1 is data. */
  lemma OscStringRow(b: u8)
    ensures b == 0x07 ==> Transition(OscString, b) == Some((Ground, None))
    ensures (0x20 <= b < 0x80 || 0xA0 <= b) ==> Transition(OscString, b) == Some((Anywhere, Some(OscPut)))
  {
  }

  /** In a DCS passthrough every 7-bit byte but DEL is passed on and ST ends the string. */
  lemma DcsPassthroughRow(b: u8)
    requires b < 0x80 && b != 0x18 && b != 0x1A && b != 0x1B
    ensures Transition(DcsPassthrough, b) ==
      if b == 0x7F then Some((Anywhere, Some(Ignore))) else Some((Anywhere, Some(Put)))
  {
  }

  /** An intermediate byte is collected in an escape sequence, and a byte 0x30-0x7E after it dispatches. */
  lemma EscapeIntermediateRow(b: u8)
    ensures 0x20 <= b <= 0x2F ==> Transition(Escape, b) == Some((EscapeIntermediate, Some(Collect)))
    ensures 0x20 <= b <= 0x2F ==> Transition(EscapeIntermediate, b) == Some((Anywhere, Some(Collect)))
    ensures 0x30 <= b <= 0x7E ==> Transition(EscapeIntermediate, b) == Some((Ground, Some(EscDispatch)))
  {
  }

  /** A private marker 0x3C-0x3F right after CSI or DCS is collected as an intermediate. */
  lemma PrivateMarkerRow(b: u8)
    requires 0x3C <= b <= 0x3F
    ensures Transition(CsiEntry, b) == Some((CsiParam, Some(Collect)))
    ensures Transition(DcsEntry, b) == Some((DcsParam, Some(Collect)))
  {
  }

  /** Digits and `;` are DCS parameter bytes. */
  lemma DcsParamRow(b: u8)
    requires (0x30 <= b <= 0x39) || b == 0x3B
    ensures Transition(DcsEntry, b) == Some((DcsParam, Some(Param)))
    ensures Transition(DcsParam, b) == Some((Anywhere, Some(Param)))
  {
  }

  /** Intermediates are collected in a DCS header, and a final byte enters the passthrough. */
  lemma DcsHeaderRow(b: u8)
    ensures 0x20 <= b <= 0x2F ==> Transition(DcsEntry, b) == Some((DcsIntermediate, Some(Collect)))
    ensures 0x20 <= b <= 0x2F ==> Transition(DcsParam, b) == Some((DcsIntermediate, Some(Collect)))
    ensures 0x20 <= b <= 0x2F ==> Transition(DcsIntermediate, b) == Some((Anywhere, Some(Collect)))
    ensures 0x40 <= b <= 0x7E ==> Transition(DcsEntry, b) == Some((DcsPassthrough, None))
    ensures 0x40 <= b <= 0x7E ==> Transition(DcsParam, b) == Some((DcsPassthrough, None))
    ensures 0x40 <= b <= 0x7E ==> Transition(DcsIntermediate, b) == Some((DcsPassthrough, None))
  {
  }
}
