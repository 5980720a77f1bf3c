/**
 * saiga_input's PC-style function-key entries: the entry record, the
 * fifteen xterm modifier combinations in mode order, and `pc_style`, which
 * makes one entry per combination with the sequence its mode value formats.
 */
module FunctionKeys {
  import opened Common

  /**
   * The modifier bits of the xterm modifier parameter (the parameter is
   * one more than the bits): Shift 1, Alt 2, Control 4, Meta 8.
   */
  type Mods = bv8

  const SHIFT: Mods := 1
  const ALT: Mods := 2
  const CTRL: Mods := 4
  const META: Mods := 8

  datatype CursorMode = AnyCursor | NormalCursor | ApplicationCursor
  datatype KeypadMode = AnyKeypad | NormalKeypad | ApplicationKeypad
  datatype ModifyKeys = AnyModify | Set | SetOther

  /** `Entry`: one row of the key table. */
  datatype Entry = Entry(
    mods: Mods,
    modsEmptyIsAny: bool,
    cursor: CursorMode,
    keypad: KeypadMode,
    modifyOtherKeys: ModifyKeys,
    sequence: seq<u8>)

  /** `Entry::default`: no modifiers, where empty matches any, every mode Any, no bytes. */
  const DEFAULT_ENTRY: Entry := Entry(0, true, AnyCursor, AnyKeypad, AnyModify, [])

  /** Whether an entry carries the default's fields apart from its modifiers and sequence. */
  predicate DefaultModes(e: Entry)
  {
    e.modsEmptyIsAny && e.cursor == AnyCursor && e.keypad == AnyKeypad && e.modifyOtherKeys == AnyModify
  }

  /** `MODIFIERS`: the combinations whose mode value is the place plus 2. */
  const MODIFIERS: seq<Mods> := [
    SHIFT,
    ALT,
    SHIFT | ALT,
    CTRL,
    SHIFT | CTRL,
    ALT | CTRL,
    SHIFT | ALT | CTRL,
    META,
    SHIFT | META,
    ALT | META,
    SHIFT | ALT | META,
    CTRL | META,
    SHIFT | CTRL | META,
    ALT | CTRL | META,
    SHIFT | ALT | CTRL | META
  ]

  /**
   * Combination `i` is the set of bits of `i + 1`: so the fifteen are the
   * non-empty subsets of the four modifiers, each once, and the mode value
   * `i + 2` is one more than the bits.
   */
  lemma ModifiersAreMasks()
    ensures |MODIFIERS| == 15
    ensures forall i :: 0 <= i < 15 ==> MODIFIERS[i] as int == i + 1
    ensures forall i, j :: 0 <= i < j < 15 ==> MODIFIERS[i] != MODIFIERS[j]
    ensures forall i :: 0 <= i < 15 ==> MODIFIERS[i] != 0 && MODIFIERS[i] & !(SHIFT | ALT | CTRL | META) == 0
  {
    assert MODIFIERS == [1, 2, 3, 4, 5, 6, 7, 8, 9, 10, 11, 12, 13, 14, 15];
  }

  /**
   * `pc_style`: one entry per combination, in order, with the combination
   * as its modifiers and the bytes `fmt` gives for the mode value `i + 2`;
   * everything else is `Entry::default`.
   */
  function PcStyle(fmt: usize -> seq<u8>): (r: seq<Entry>)
    ensures |r| == |MODIFIERS|
    ensures forall i :: 0 <= i < |r| ==> r[i] == DEFAULT_ENTRY.(mods := MODIFIERS[i], sequence := fmt(i + 2))
  {
    seq(|MODIFIERS|, i requires 0 <= i < |MODIFIERS| => DEFAULT_ENTRY.(mods := MODIFIERS[i], sequence := fmt(i + 2)))
  }

  /**
   * The fifteen entries have distinct non-empty modifiers and otherwise the
   * default modes, and each one's sequence is `fmt` of one more than its
   * modifier bits.
   */
  lemma PcStyleEntries(fmt: usize -> seq<u8>)
    ensures |PcStyle(fmt)| == 15
    ensures forall i :: 0 <= i < 15 ==> DefaultModes(PcStyle(fmt)[i]) && PcStyle(fmt)[i].mods != 0
    ensures forall i :: 0 <= i < 15 ==> PcStyle(fmt)[i].sequence == fmt(PcStyle(fmt)[i].mods as int + 1)
    ensures forall i, j :: 0 <= i < j < 15 ==> PcStyle(fmt)[i].mods != PcStyle(fmt)[j].mods
  {
    ModifiersAreMasks();
  }
}
