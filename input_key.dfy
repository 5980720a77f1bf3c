/**
 * saiga_input's keys: the `Key` variants, the characters of the printable
 * ones (the table `build_key_to_char_map` fills), the reverse table from
 * bytes to non-keypad keys (`build_ascii_to_key_map`, a pass over every
 * byte that searches the variants), the key predicates, the modifier bit
 * flags and `KeyEvent::effective_mods`. `Key` is `repr(u8)` and indexes
 * its tables by discriminant, so a key is its discriminant here.
 */
module InputKey {
  import opened Common

  /** `Action`. */
  datatype Action = Release | Press | Repeat

  /** The number of variants, `Key::ALL_VARIANTS.len()`. */
  const KEY_COUNT: nat := 131

  /** `Key`, by discriminant: `Key::ALL_VARIANTS[i]` is `i`. */
  type Key = k: nat | k < KEY_COUNT

  const Invalid: Key := 0

  // a-z
  const A: Key := 1
  const B: Key := 2
  const C: Key := 3
  const D: Key := 4
  const E: Key := 5
  const F: Key := 6
  const G: Key := 7
  const H: Key := 8
  const I: Key := 9
  const J: Key := 10
  const K: Key := 11
  const L: Key := 12
  const M: Key := 13
  const N: Key := 14
  const O: Key := 15
  const P: Key := 16
  const Q: Key := 17
  const R: Key := 18
  const S: Key := 19
  const T: Key := 20
  const U: Key := 21
  const V: Key := 22
  const W: Key := 23
  const X: Key := 24
  const Y: Key := 25
  const Z: Key := 26

  // numbers
  const Zero: Key := 27
  const One: Key := 28
  const Two: Key := 29
  const Three: Key := 30
  const Four: Key := 31
  const Five: Key := 32
  const Six: Key := 33
  const Seven: Key := 34
  const Eight: Key := 35
  const Nine: Key := 36

  // punctuation
  const Semicolon: Key := 37
  const Space: Key := 38
  const Apostrophe: Key := 39
  const Comma: Key := 40
  const GraveAccent: Key := 41
  const Period: Key := 42
  const Slash: Key := 43
  const Minus: Key := 44
  const Plus: Key := 45
  const Equal: Key := 46
  const LeftBracket: Key := 47
  const RightBracket: Key := 48
  const Backslash: Key := 49

  // control
  const Up: Key := 50
  const Down: Key := 51
  const Right: Key := 52
  const Left: Key := 53
  const Home: Key := 54
  const End: Key := 55
  const Insert: Key := 56
  const Delete: Key := 57
  const CapsLock: Key := 58
  const ScrollLock: Key := 59
  const NumLock: Key := 60
  const PageUp: Key := 61
  const PageDown: Key := 62
  const Escape: Key := 63
  const Enter: Key := 64
  const Tab: Key := 65
  const Backspace: Key := 66
  const PrintScreen: Key := 67
  const Pause: Key := 68

  // function keys
  const F1: Key := 69
  const F2: Key := 70
  const F3: Key := 71
  const F4: Key := 72
  const F5: Key := 73
  const F6: Key := 74
  const F7: Key := 75
  const F8: Key := 76
  const F9: Key := 77
  const F10: Key := 78
  const F11: Key := 79
  const F12: Key := 80
  const F13: Key := 81
  const F14: Key := 82
  const F15: Key := 83
  const F16: Key := 84
  const F17: Key := 85
  const F18: Key := 86
  const F19: Key := 87
  const F20: Key := 88
  const F21: Key := 89
  const F22: Key := 90
  const F23: Key := 91
  const F24: Key := 92
  const F25: Key := 93

  // keypad
  const KP0: Key := 94
  const KP1: Key := 95
  const KP2: Key := 96
  const KP3: Key := 97
  const KP4: Key := 98
  const KP5: Key := 99
  const KP6: Key := 100
  const KP7: Key := 101
  const KP8: Key := 102
  const KP9: Key := 103
  const KPDecimal: Key := 104
  const KPDivide: Key := 105
  const KPMultiply: Key := 106
  const KPSubtract: Key := 107
  const KPAdd: Key := 108
  const KPEnter: Key := 109
  const KPEqual: Key := 110
  const KPSeparator: Key := 111
  const KPLeft: Key := 112
  const KPRight: Key := 113
  const KPUp: Key := 114
  const KPdown: Key := 115
  const KPPageUp: Key := 116
  const KPPageDown: Key := 117
  const KPHome: Key := 118
  const KPEnd: Key := 119
  const KPInsert: Key := 120
  const KPDelete: Key := 121
  const KPBegin: Key := 122

  // modifiers
  const LeftShift: Key := 123
  const LeftControl: Key := 124
  const LeftAlt: Key := 125
  const LeftSuper: Key := 126
  const RightShift: Key := 127
  const RightControl: Key := 128
  const RightAlt: Key := 129
  const RightSuper: Key := 130

  /** `KEY_TO_CHAR_MAP[key as usize]`: the character each `set!` line gives a key, None for the rest. */
  function Char(k: Key): Option<char>
  {
    if k == A then Some('a')
    else if k == B then Some('b')
    else if k == C then Some('c')
    else if k == D then Some('d')
    else if k == E then Some('e')
    else if k == F then Some('f')
    else if k == G then Some('g')
    else if k == H then Some('h')
    else if k == I then Some('i')
    else if k == J then Some('j')
    else if k == K then Some('k')
    else if k == L then Some('l')
    else if k == M then Some('m')
    else if k == N then Some('n')
    else if k == O then Some('o')
    else if k == P then Some('p')
    else if k == Q then Some('q')
    else if k == R then Some('r')
    else if k == S then Some('s')
    else if k == T then Some('t')
    else if k == U then Some('u')
    else if k == V then Some('v')
    else if k == W then Some('w')
    else if k == X then Some('x')
    else if k == Y then Some('y')
    else if k == Z then Some('z')
    else if k == Zero then Some('0')
    else if k == One then Some('1')
    else if k == Two then Some('2')
    else if k == Three then Some('3')
    else if k == Four then Some('4')
    else if k == Five then Some('5')
    else if k == Six then Some('6')
    else if k == Seven then Some('7')
    else if k == Eight then Some('8')
    else if k == Nine then Some('9')
    else if k == Semicolon then Some(';')
    else if k == Space then Some(' ')
    else if k == Apostrophe then Some('\'')
    else if k == Comma then Some(',')
    else if k == GraveAccent then Some('`')
    else if k == Period then Some('.')
    else if k == Slash then Some('/')
    else if k == Minus then Some('-')
    else if k == Plus then Some('+')
    else if k == Equal then Some('=')
    else if k == LeftBracket then Some('[')
    else if k == RightBracket then Some(']')
    else if k == Backslash then Some('\\')
    else if k == Tab then Some('\t')
    else if k == KP0 then Some('0')
    else if k == KP1 then Some('1')
    else if k == KP2 then Some('2')
    else if k == KP3 then Some('3')
    else if k == KP4 then Some('4')
    else if k == KP5 then Some('5')
    else if k == KP6 then Some('6')
    else if k == KP7 then Some('7')
    else if k == KP8 then Some('8')
    else if k == KP9 then Some('9')
    else if k == KPDecimal then Some('.')
    else if k == KPDivide then Some('/')
    else if k == KPMultiply then Some('*')
    else if k == KPSubtract then Some('-')
    else if k == KPAdd then Some('+')
    else if k == KPEqual then Some('=')
    else None
  }

  /**
   * `build_key_to_char_map`: a table of None, then one `set!` per
   * printable key, group by group. It holds at each key exactly that key's
   * character.
   */
  method BuildKeyToCharMap() returns (m: seq<Option<char>>)
    ensures |m| == KEY_COUNT && forall k: Key :: m[k] == Char(k)
  {
    m := seq(KEY_COUNT, _ => None);
    m := SetLetters(m);
    m := SetNumbers(m);
    m := SetPunctuation(m);
    m := m[Tab := Some('\t')];
    m := SetKeypad(m);
  }

  /** The `set!` lines of the letters. */
  method SetLetters(m0: seq<Option<char>>) returns (m: seq<Option<char>>)
    requires |m0| == KEY_COUNT
    ensures |m| == KEY_COUNT && forall k: Key :: m[k] == if A <= k <= Z then Char(k) else m0[k]
  {
    m := m0;
    m := m[A := Some('a')];
    m := m[B := Some('b')];
    m := m[C := Some('c')];
    m := m[D := Some('d')];
    m := m[E := Some('e')];
    m := m[F := Some('f')];
    m := m[G := Some('g')];
    m := m[H := Some('h')];
    m := m[I := Some('i')];
    m := m[J := Some('j')];
    m := m[K := Some('k')];
    m := m[L := Some('l')];
    m := m[M := Some('m')];
    m := m[N := Some('n')];
    m := m[O := Some('o')];
    m := m[P := Some('p')];
    m := m[Q := Some('q')];
    m := m[R := Some('r')];
    m := m[S := Some('s')];
    m := m[T := Some('t')];
    m := m[U := Some('u')];
    m := m[V := Some('v')];
    m := m[W := Some('w')];
    m := m[X := Some('x')];
    m := m[Y := Some('y')];
    m := m[Z := Some('z')];
  }

  /** The `set!` lines of the digits. */
  method SetNumbers(m0: seq<Option<char>>) returns (m: seq<Option<char>>)
    requires |m0| == KEY_COUNT
    ensures |m| == KEY_COUNT && forall k: Key :: m[k] == if Zero <= k <= Nine then Char(k) else m0[k]
  {
    m := m0;
    m := m[Zero := Some('0')];
    m := m[One := Some('1')];
    m := m[Two := Some('2')];
    m := m[Three := Some('3')];
    m := m[Four := Some('4')];
    m := m[Five := Some('5')];
    m := m[Six := Some('6')];
    m := m[Seven := Some('7')];
    m := m[Eight := Some('8')];
    m := m[Nine := Some('9')];
  }

  /** The `set!` lines of the punctuation. */
  method SetPunctuation(m0: seq<Option<char>>) returns (m: seq<Option<char>>)
    requires |m0| == KEY_COUNT
    ensures |m| == KEY_COUNT && forall k: Key :: m[k] == if Semicolon <= k <= Backslash then Char(k) else m0[k]
  {
    m := m0;
    m := m[Semicolon := Some(';')];
    m := m[Space := Some(' ')];
    m := m[Apostrophe := Some('\'')];
    m := m[Comma := Some(',')];
    m := m[GraveAccent := Some('`')];
    m := m[Period := Some('.')];
    m := m[Slash := Some('/')];
    m := m[Minus := Some('-')];
    m := m[Plus := Some('+')];
    m := m[Equal := Some('=')];
    m := m[LeftBracket := Some('[')];
    m := m[RightBracket := Some(']')];
    m := m[Backslash := Some('\\')];
  }

  /** The `set!` lines of the keypad digits and operators. */
  method SetKeypad(m0: seq<Option<char>>) returns (m: seq<Option<char>>)
    requires |m0| == KEY_COUNT
    ensures |m| == KEY_COUNT && forall k: Key :: m[k] == if KP0 <= k <= KPEqual && k != KPEnter then Char(k) else m0[k]
  {
    m := m0;
    m := m[KP0 := Some('0')];
    m := m[KP1 := Some('1')];
    m := m[KP2 := Some('2')];
    m := m[KP3 := Some('3')];
    m := m[KP4 := Some('4')];
    m := m[KP5 := Some('5')];
    m := m[KP6 := Some('6')];
    m := m[KP7 := Some('7')];
    m := m[KP8 := Some('8')];
    m := m[KP9 := Some('9')];
    m := m[KPDecimal := Some('.')];
    m := m[KPDivide := Some('/')];
    m := m[KPMultiply := Some('*')];
    m := m[KPSubtract := Some('-')];
    m := m[KPAdd := Some('+')];
    m := m[KPEqual := Some('=')];
  }

  /** The non-keypad key of each character that has one: the reference the byte table is checked against. */
  function KeyOfChar(c: char): Option<Key>
  {
    if c == 'a' then Some(A)
    else if c == 'b' then Some(B)
    else if c == 'c' then Some(C)
    else if c == 'd' then Some(D)
    else if c == 'e' then Some(E)
    else if c == 'f' then Some(F)
    else if c == 'g' then Some(G)
    else if c == 'h' then Some(H)
    else if c == 'i' then Some(I)
    else if c == 'j' then Some(J)
    else if c == 'k' then Some(K)
    else if c == 'l' then Some(L)
    else if c == 'm' then Some(M)
    else if c == 'n' then Some(N)
    else if c == 'o' then Some(O)
    else if c == 'p' then Some(P)
    else if c == 'q' then Some(Q)
    else if c == 'r' then Some(R)
    else if c == 's' then Some(S)
    else if c == 't' then Some(T)
    else if c == 'u' then Some(U)
    else if c == 'v' then Some(V)
    else if c == 'w' then Some(W)
    else if c == 'x' then Some(X)
    else if c == 'y' then Some(Y)
    else if c == 'z' then Some(Z)
    else if c == '0' then Some(Zero)
    else if c == '1' then Some(One)
    else if c == '2' then Some(Two)
    else if c == '3' then Some(Three)
    else if c == '4' then Some(Four)
    else if c == '5' then Some(Five)
    else if c == '6' then Some(Six)
    else if c == '7' then Some(Seven)
    else if c == '8' then Some(Eight)
    else if c == '9' then Some(Nine)
    else if c == ';' then Some(Semicolon)
    else if c == ' ' then Some(Space)
    else if c == '\'' then Some(Apostrophe)
    else if c == ',' then Some(Comma)
    else if c == '`' then Some(GraveAccent)
    else if c == '.' then Some(Period)
    else if c == '/' then Some(Slash)
    else if c == '-' then Some(Minus)
    else if c == '+' then Some(Plus)
    else if c == '=' then Some(Equal)
    else if c == '[' then Some(LeftBracket)
    else if c == ']' then Some(RightBracket)
    else if c == '\\' then Some(Backslash)
    else if c == '\t' then Some(Tab)
    else None
  }

  /** `is_printable`: the key has a character. */
  predicate IsPrintable(k: Key)
  {
    Char(k).Some?
  }

  /** `is_shift`. */
  predicate IsShift(k: Key)
  {
    k == LeftShift || k == RightShift
  }

  /** `is_alt`. */
  predicate IsAlt(k: Key)
  {
    k == LeftAlt || k == RightAlt
  }

  /** `is_control`. */
  predicate IsControl(k: Key)
  {
    k == LeftControl || k == RightControl
  }

  /** `is_super`. */
  predicate IsSuper(k: Key)
  {
    k == LeftSuper || k == RightSuper
  }

  /** `is_modifier`. */
  predicate IsModifier(k: Key)
  {
    IsControl(k) || IsShift(k) || IsAlt(k) || IsSuper(k)
  }

  /** `is_keypad`. */
  predicate IsKeypad(k: Key)
  {
    k in {KP0, KP1, KP2, KP3, KP4, KP5, KP6, KP7, KP8, KP9, KPDecimal, KPDivide,
      KPMultiply, KPSubtract, KPAdd, KPEnter, KPEqual, KPSeparator, KPLeft, KPRight,
      KPUp, KPdown, KPPageUp, KPPageDown, KPHome, KPEnd, KPInsert, KPDelete, KPBegin}
  }

  /** The keypad keys are exactly the variants declared from `KP0` through `KPBegin`. */
  lemma KeypadRange(k: Key)
    ensures IsKeypad(k) <==> KP0 <= k <= KPBegin
  {
  }

  /** The modifiers are exactly the eight Left/Right Shift, Control, Alt and Super keys, declared last. */
  lemma ModifierKeys(k: Key)
    ensures IsModifier(k) <==> k in {LeftShift, LeftControl, LeftAlt, LeftSuper, RightShift, RightControl, RightAlt, RightSuper}
    ensures IsModifier(k) <==> LeftShift <= k
  {
  }

  /** A modifier key has no character and is not on the keypad. */
  lemma ModifierNotPrintable(k: Key)
    requires IsModifier(k)
    ensures !IsPrintable(k) && !IsKeypad(k)
  {
  }

  /**
   * The printable keys: the letters, digits and punctuation, Tab (as
   * '\t'), and the keypad digits and operators other than Enter; the
   * arrows and other controls, the function keys, the rest of the keypad,
   * the modifiers and `Invalid` have no character.
   */
  lemma PrintableKeys(k: Key)
    ensures IsPrintable(k) <==>
      || A <= k <= Backslash
      || k == Tab
      || (KP0 <= k <= KPEqual && k != KPEnter)
    ensures Char(Tab) == Some('\t')
  {
  }

  /** The search of `ascii_to_key` from place `i`: the first non-keypad key with character `c`. */
  function FirstWithChar(c: char, i: nat): (r: Option<Key>)
    requires i <= KEY_COUNT
    ensures r.Some? ==> !IsKeypad(r.value) && Char(r.value) == Some(c) && i <= r.value
    ensures r.None? ==> forall k: Key :: i <= k ==> IsKeypad(k) || Char(k) != Some(c)
    decreases KEY_COUNT - i
  {
    if i == KEY_COUNT then None
    else
      if !IsKeypad(i) && Char(i) == Some(c) then Some(i) else FirstWithChar(c, i + 1)
  }

  /**
   * `Key::from_ascii`, the entry of `ASCII_TO_KEY_MAP`: a non-keypad key
   * whose character is the byte, and None exactly when there is none.
   */
  function FromAscii(b: u8): (r: Option<Key>)
    ensures r.Some? ==> !IsKeypad(r.value) && Char(r.value) == Some(ByteChar(b))
    ensures r.None? <==> forall k: Key :: !IsKeypad(k) ==> Char(k) != Some(ByteChar(b))
  {
    FirstWithChar(ByteChar(b), 0)
  }

  /** `ascii_to_key`: a pass over `Key::ALL_VARIANTS` that skips the keypad. */
  method AsciiToKey(ascii: u8) returns (r: Option<Key>)
    ensures r == FromAscii(ascii)
  {
    var c := ByteChar(ascii);
    var i := 0;
    while i != KEY_COUNT
      invariant i <= KEY_COUNT && FirstWithChar(c, i) == FromAscii(ascii)
      decreases KEY_COUNT - i
    {
      var key: Key := i;
      if !IsKeypad(key) {
        match Char(key) {
          case Some(ch) =>
            if ch == c {
              return Some(key);
            }
          case None =>
        }
      }
      i := i + 1;
    }
    return None;
  }

  /** `build_ascii_to_key_map`: `ascii_to_key` of every byte, 0 through 255, in turn. */
  method BuildAsciiToKeyMap() returns (m: seq<Option<Key>>)
    ensures |m| == 0x100 && forall b: u8 :: m[b] == FromAscii(b)
  {
    m := seq(0x100, _ => None);
    var ascii: u8 := 0;
    while true
      invariant |m| == 0x100 && forall b: u8 :: b < ascii ==> m[b] == FromAscii(b)
      decreases 0xFF - ascii
    {
      var key := AsciiToKey(ascii);
      m := m[ascii := key];
      if ascii == 0xFF {
        break;
      }
      ascii := ascii + 1;
    }
  }

  /** What `KeyOfChar` gives is a non-keypad key of that character, and an ASCII one. */
  lemma KeyOfCharSound(c: char)
    requires KeyOfChar(c).Some?
    ensures !IsKeypad(KeyOfChar(c).value) && Char(KeyOfChar(c).value) == Some(c)
    ensures c as int < 0x80
  {
    if 'a' <= c <= 'z' {
      LetterSound(c);
    } else if '0' <= c <= '9' {
      DigitSound(c);
    } else {
      PunctuationSound(c);
    }
  }

  lemma LetterSound(c: char)
    requires KeyOfChar(c).Some? && 'a' <= c <= 'z'
    ensures A <= KeyOfChar(c).value <= Z && Char(KeyOfChar(c).value) == Some(c)
  {
  }

  lemma DigitSound(c: char)
    requires KeyOfChar(c).Some? && '0' <= c <= '9'
    ensures Zero <= KeyOfChar(c).value <= Nine && Char(KeyOfChar(c).value) == Some(c)
  {
  }

  lemma PunctuationSound(c: char)
    requires KeyOfChar(c).Some? && !('a' <= c <= 'z') && !('0' <= c <= '9')
    ensures Semicolon <= KeyOfChar(c).value <= Tab && Char(KeyOfChar(c).value) == Some(c) && c as int < 0x80
  {
  }

  /** Every non-keypad key with a character is the `KeyOfChar` of it. */
  lemma KeyOfCharComplete(k: Key)
    requires !IsKeypad(k) && Char(k).Some?
    ensures KeyOfChar(Char(k).value) == Some(k)
  {
    if k <= Z {
      LetterComplete(k);
    } else if k <= Nine {
      DigitComplete(k);
    } else {
      PunctuationComplete(k);
    }
  }

  lemma LetterComplete(k: Key)
    requires A <= k <= Z
    ensures Char(k).Some? && KeyOfChar(Char(k).value) == Some(k)
  {
  }

  lemma DigitComplete(k: Key)
    requires Zero <= k <= Nine
    ensures Char(k).Some? && KeyOfChar(Char(k).value) == Some(k)
  {
  }

  lemma PunctuationComplete(k: Key)
    requires Nine < k && !IsKeypad(k) && Char(k).Some?
    ensures KeyOfChar(Char(k).value) == Some(k)
  {
  }

  /** The byte table is the inverse of the characters of the non-keypad keys. */
  lemma FromAsciiIsInverse(b: u8)
    ensures FromAscii(b) == KeyOfChar(ByteChar(b))
  {
    var r := FromAscii(b);
    if r.Some? {
      KeyOfCharComplete(r.value);
    } else if KeyOfChar(ByteChar(b)).Some? {
      KeyOfCharSound(ByteChar(b));
    }
  }

  /**
   * No two non-keypad keys share a character, so `from_ascii` of a
   * non-keypad key's character gives back that key.
   */
  lemma FromAsciiRoundTrip(k: Key)
    requires !IsKeypad(k) && Char(k).Some?
    ensures Char(k).value as int < 0x100 && FromAscii(Char(k).value as int) == Some(k)
  {
    var c := Char(k).value;
    KeyOfCharComplete(k);
    KeyOfCharSound(c);
    assert ByteChar(c as int) == c;
    FromAsciiIsInverse(c as int);
  }

  /** `*` is the character of the keypad's `KPMultiply`. */
  lemma StarIsKeypad()
    ensures Char(KPMultiply) == Some('*') && IsKeypad(KPMultiply)
  {
  }

  /** No non-keypad key has `*`, so no key comes from its byte. */
  lemma StarHasNoKey()
    ensures FromAscii(0x2A) == None
  {
    FromAsciiIsInverse(0x2A);
    assert ByteChar(0x2A) == '*';
  }

  /** `Mods`: eight modifier bit flags. */
  type Mods = bv8

  const LEFT_SHIFT: Mods := 0x01
  const LEFT_CTRL: Mods := 0x02
  const LEFT_ALT: Mods := 0x04
  const LEFT_SUPER: Mods := 0x08
  const RIGHT_SHIFT: Mods := 0x10
  const RIGHT_CTRL: Mods := 0x20
  const RIGHT_ALT: Mods := 0x40
  const RIGHT_SUPER: Mods := 0x80

  /** `KeyEvent`; `utf8` is the text the key produced. */
  datatype KeyEvent = KeyEvent(
    action: Action,
    key: Key,
    physicalKey: Key,
    mods: Mods,
    consumedMods: Mods,
    composing: bool,
    utf8: string,
    unshiftedChar: char)

  /** `KeyEvent::DEFAULT`. */
  const DEFAULT_EVENT: KeyEvent := KeyEvent(Press, Invalid, Invalid, 0, 0, false, "", '\0')

  /**
   * `effective_mods`: with no text, every modifier held; with text, those
   * held and not consumed in producing it. Either way only held ones.
   */
  function EffectiveMods(e: KeyEvent): (r: Mods)
    ensures r & e.mods == r
    ensures |e.utf8| == 0 ==> r == e.mods
    ensures |e.utf8| > 0 ==> r & e.consumedMods == 0 && r | (e.mods & e.consumedMods) == e.mods
  {
    if |e.utf8| == 0 then e.mods else e.mods & !e.consumedMods
  }
}
