/**
 * swiftty_vte's `Processor` as values: it feeds a chunk of bytes to the byte-at-a-time
 * parser, except that in the ground state the text up to the next C0 byte
 * bypasses the table and is assembled into characters by a UTF-8
 * collector that survives from one chunk to the next.
 */
module SwifttyProcessorModel {
  import opened Common
  import opened Utf8Decode
  import Utf8
  import C0
  import SM = SwifttyModel
  import SwifttyVte
  import VteProperties
  import VteCsi
  import VteSequences
  import V = VteModel
  import opened Table
  import opened VteParams
  import E = Executor

  // ---------------------------------------------------------------------
  // The collector as a value.

  /** The collector's bytes and `remaining_count`, the bytes its sequence still expects. */
  datatype Pending = Pending(bytes: seq<u8>, remaining: nat)

  const EMPTY: Pending := Pending([], 0)

  /**
   * The collector invariant: at most four bytes are ever buffered,
   * counting those still expected, and bytes are buffered only while more
   * are expected.
   */
  predicate Bounded(c: Pending)
  {
    |c.bytes| + c.remaining <= Utf8.MAX_LENGTH && (c.remaining == 0 ==> c.bytes == [])
  }

  function Min(a: nat, b: nat): nat
  {
    if a <= b then a else b
  }

  /**
   * One collecting round of `process_utf8` (lines 83-93): push the first
   * `min(want, |bytes|)` bytes, store how many are still wanted, and print
   * the collected character once none are.
   */
  function Collect(c: Pending, bytes: seq<u8>, want: nat): (r: (Pending, seq<E.Call>, nat))
    requires Bounded(c) && |bytes| > 0 && 1 <= want && |c.bytes| + want <= Utf8.MAX_LENGTH
    ensures Bounded(r.0) && 1 <= r.2 <= |bytes|
  {
    var n := Min(want, |bytes|);
    var gathered := c.bytes + bytes[..n];
    if want - n == 0 then (EMPTY, [E.Print(Utf8.IntoChar(gathered))], n)
    else (Pending(gathered, want - n), [], n)
  }

  /**
   * One round of the loop of `process_utf8`: the bytes consumed, the
   * prints made and the new collector. A pending sequence wants its
   * remaining bytes; otherwise an ASCII byte is printed directly, a lead
   * byte wants its sequence length, and any other byte is collected alone.
   */
  function Utf8Step(c: Pending, bytes: seq<u8>): (r: (Pending, seq<E.Call>, nat))
    requires Bounded(c) && |bytes| > 0
    ensures Bounded(r.0) && 1 <= r.2 <= |bytes|
  {
    if c.remaining > 0 then Collect(c, bytes, c.remaining)
    else match Utf8.ExpectedBytesCount(bytes[0])
      case Some(count) =>
        if count == 1 then (c, [E.Print(ByteChar(bytes[0]))], 1)
        else Collect(c, bytes, count)
      case None => Collect(c, bytes, 1)
  }

  /** `process_utf8`: rounds until the bytes run out. */
  function ProcessUtf8(c: Pending, bytes: seq<u8>): (r: (Pending, seq<E.Call>))
    requires Bounded(c)
    ensures Bounded(r.0)
    decreases |bytes|
  {
    if |bytes| == 0 then (c, [])
    else
      var (c1, k1, n) := Utf8Step(c, bytes);
      var (c2, k2) := ProcessUtf8(c1, bytes[n..]);
      (c2, k1 + k2)
  }

  // ---------------------------------------------------------------------
  // The processor as a value.

  /**
   * The loops of `process` that feed the parser byte by byte while it is
   * inside a sequence: the new parser, the calls and the bytes consumed;
   * None where the parser panics on a byte that has no table entry.
   */
  function InSequence(p: SM.SState, bytes: seq<u8>): (r: Option<(SM.SState, seq<E.Call>, nat)>)
    requires p.Valid()
    ensures r.Some? ==> r.value.0.Valid() && r.value.2 <= |bytes|
    ensures r.Some? && r.value.2 < |bytes| ==> !SM.InEscapeSequence(r.value.0)
    decreases |bytes|
  {
    if !SM.InEscapeSequence(p) || |bytes| == 0 then Some((p, [], 0))
    else if !SM.Known(p.state, bytes[0]) then None
    else
      var (q, k1) := SM.Advance(p, bytes[0]);
      match InSequence(q, bytes[1..])
      case None => None
      case Some((q2, k2, n)) => Some((q2, k1 + k2, n + 1))
  }

  /** The check after the text (lines 40-43): a sequence left unfinished prints U+FFFD and is dropped. */
  function Flushed(c: Pending): (r: (Pending, seq<E.Call>))
    requires Bounded(c)
    ensures r.0 == EMPTY
    ensures r.1 == if c.remaining > 0 then [E.Print(REPLACEMENT_CHARACTER)] else []
  {
    if c.remaining > 0 then (EMPTY, [E.Print(REPLACEMENT_CHARACTER)]) else (c, [])
  }

  /** The calls `calls`, made before whatever `r` makes. */
  function Prefixed(calls: seq<E.Call>, r: Option<(Pending, SM.SState, seq<E.Call>)>): (r': Option<(Pending, SM.SState, seq<E.Call>)>)
  {
    match r
    case None => None
    case Some((c, p, k)) => Some((c, p, calls + k))
  }

  /**
   * The outer loop of `process` over the remaining bytes: the text up to
   * the next C0 byte goes to `process_utf8`; a sequence it leaves
   * unfinished is printed as one U+FFFD and dropped; then the C0 byte and
   * the bytes after it go to the parser until it is back in the ground
   * state.
   */
  function TextLoop(c: Pending, p: SM.SState, remaining: seq<u8>): (r: Option<(Pending, SM.SState, seq<E.Call>)>)
    requires Bounded(c) && p.Valid()
    ensures r.Some? ==> Bounded(r.value.0) && r.value.1.Valid()
    decreases |remaining|
  {
    if |remaining| == 0 then Some((c, p, []))
    else match C0.FirstIndexOfC0(remaining)
      case None =>
        var (c1, k1) := ProcessUtf8(c, remaining);
        Some((c1, p, k1))
      case Some(k) =>
        var (c1, k1) := ProcessUtf8(c, remaining[..k]);
        var (c2, k2) := Flushed(c1);
        var rest := remaining[k..];
        C0.AllCharacterization(rest[0]);
        SM.KnownIff(p.state, rest[0]);
        var (q, k3) := SM.Advance(p, rest[0]);
        match InSequence(q, rest[1..])
        case None => None
        case Some((q2, k4, n)) => Prefixed(k1 + k2 + k3 + k4, TextLoop(c2, q2, rest[1 + n..]))
  }

  /** `process`: finish the sequence in progress, then the outer loop. */
  function Process(c: Pending, p: SM.SState, bytes: seq<u8>): (r: Option<(Pending, SM.SState, seq<E.Call>)>)
    requires Bounded(c) && p.Valid()
    ensures r.Some? ==> Bounded(r.value.0) && r.value.1.Valid()
  {
    match InSequence(p, bytes)
    case None => None
    case Some((q, k1, i)) => Prefixed(k1, TextLoop(c, q, bytes[i..]))
  }

  // ---------------------------------------------------------------------
  // Properties of the UTF-8 path.

  /**
   * The number of bytes a round wants, given the collector and the next
   * byte; 0 stands for an ASCII byte printed without the collector.
   */
  function Want(c: Pending, lead: u8): (w: nat)
    requires Bounded(c)
    ensures w == 0 ==> c.remaining == 0
    ensures w > 0 ==> |c.bytes| + w <= Utf8.MAX_LENGTH
  {
    if c.remaining > 0 then c.remaining
    else match Utf8.ExpectedBytesCount(lead)
      case Some(count) => if count == 1 then 0 else count
      case None => 1
  }

  /** A round either prints an ASCII byte directly or collects what it wants. */
  lemma StepByWant(c: Pending, bytes: seq<u8>)
    requires Bounded(c) && |bytes| > 0
    ensures Want(c, bytes[0]) == 0 ==> Utf8Step(c, bytes) == (c, [E.Print(ByteChar(bytes[0]))], 1)
    ensures Want(c, bytes[0]) > 0 ==> Utf8Step(c, bytes) == Collect(c, bytes, Want(c, bytes[0]))
  {
  }

  /** A round that completes its character within `a` does the same when more bytes follow. */
  lemma StepOfLonger(c: Pending, a: seq<u8>, b: seq<u8>)
    requires Bounded(c) && |a| > 0 && Utf8Step(c, a).0.remaining == 0
    ensures Utf8Step(c, a + b) == Utf8Step(c, a)
  {
    assert (a + b)[0] == a[0];
    StepByWant(c, a);
    StepByWant(c, a + b);
    var w := Want(c, a[0]);
    if w > 0 {
      assert w <= |a|;
      assert (a + b)[..w] == a[..w];
    }
  }

  /** A round that runs out of bytes consumes them all and prints nothing. */
  lemma StepAcrossEnds(c: Pending, a: seq<u8>)
    requires Bounded(c) && |a| > 0 && Utf8Step(c, a).0.remaining > 0
    ensures Utf8Step(c, a).2 == |a| && Utf8Step(c, a).1 == []
  {
    StepByWant(c, a);
  }

  /** Collecting from `a + b` is collecting all of `a`, then the rest of what is wanted from `b`. */
  lemma CollectAcross(c: Pending, a: seq<u8>, b: seq<u8>, w: nat)
    requires Bounded(c) && |a| > 0 && |b| > 0 && |a| < w && |c.bytes| + w <= Utf8.MAX_LENGTH
    ensures Collect(c, a, w) == (Pending(c.bytes + a, w - |a|), [], |a|)
    ensures var t := Collect(Pending(c.bytes + a, w - |a|), b, w - |a|);
      Collect(c, a + b, w) == (t.0, t.1, |a| + t.2)
  {
    assert a[..|a|] == a;
    var n' := Min(w - |a|, |b|);
    assert Min(w, |a + b|) == |a| + n';
    assert (a + b)[..|a| + n'] == a + b[..n'];
    assert c.bytes + (a + b)[..|a| + n'] == (c.bytes + a) + b[..n'];
  }

  /** A round that runs out of bytes within `a` continues into `b` where the whole input would. */
  lemma StepAcross(c: Pending, a: seq<u8>, b: seq<u8>)
    requires Bounded(c) && |a| > 0 && |b| > 0 && Utf8Step(c, a).0.remaining > 0
    ensures var t := Utf8Step(Utf8Step(c, a).0, b);
      Utf8Step(c, a + b) == (t.0, t.1, |a| + t.2)
  {
    AcrossWant(c, a);
    var w := Want(c, a[0]);
    assert (a + b)[0] == a[0];
    StepByWant(c, a + b);
    CollectAcross(c, a, b, w);
    StepByWant(Pending(c.bytes + a, w - |a|), b);
  }

  /** A round that runs out of bytes wanted more than `a` holds, and collected all of it. */
  lemma AcrossWant(c: Pending, a: seq<u8>)
    requires Bounded(c) && |a| > 0 && Utf8Step(c, a).0.remaining > 0
    ensures Want(c, a[0]) > |a|
    ensures Utf8Step(c, a) == (Pending(c.bytes + a, Want(c, a[0]) - |a|), [], |a|)
  {
    StepByWant(c, a);
    assert a[..|a|] == a;
  }

  /** `process_utf8` is one round followed by the rest. */
  lemma Unfold(c: Pending, bytes: seq<u8>)
    requires Bounded(c) && |bytes| > 0
    ensures var s := Utf8Step(c, bytes);
      ProcessUtf8(c, bytes) == (ProcessUtf8(s.0, bytes[s.2..]).0, s.1 + ProcessUtf8(s.0, bytes[s.2..]).1)
  {
  }

  lemma DropAppend(a: seq<u8>, b: seq<u8>, n: nat)
    requires n <= |a|
    ensures (a + b)[n..] == a[n..] + b
  {
  }

  lemma DropTwice(s: seq<u8>, i: nat, j: nat)
    requires i + j <= |s|
    ensures s[i..][j..] == s[i + j..]
  {
  }

  /** The chunk property when the first round completes within `a`, given it for the rest of `a`. */
  lemma ChunksComplete(c: Pending, a: seq<u8>, b: seq<u8>)
    requires Bounded(c) && |a| > 0 && Utf8Step(c, a).0.remaining == 0
    requires var s := Utf8Step(c, a); var m := ProcessUtf8(s.0, a[s.2..]);
      ProcessUtf8(s.0, a[s.2..] + b).0 == ProcessUtf8(m.0, b).0
      && ProcessUtf8(s.0, a[s.2..] + b).1 == m.1 + ProcessUtf8(m.0, b).1
    ensures ProcessUtf8(c, a + b).0 == ProcessUtf8(ProcessUtf8(c, a).0, b).0
    ensures ProcessUtf8(c, a + b).1 == ProcessUtf8(c, a).1 + ProcessUtf8(ProcessUtf8(c, a).0, b).1
  {
    var s := Utf8Step(c, a);
    StepOfLonger(c, a, b);
    DropAppend(a, b, s.2);
    Unfold(c, a);
    Unfold(c, a + b);
    var m := ProcessUtf8(s.0, a[s.2..]);
    var r := ProcessUtf8(m.0, b);
    var whole := ProcessUtf8(s.0, a[s.2..] + b);
    assert ProcessUtf8(c, a + b) == (whole.0, s.1 + whole.1);
    assert ProcessUtf8(c, a) == (m.0, s.1 + m.1);
    E.CallsAssociative(s.1, m.1, r.1);
  }

  /** The chunk property when the first round runs out of bytes within `a`. */
  lemma ChunksAcross(c: Pending, a: seq<u8>, b: seq<u8>)
    requires Bounded(c) && |a| > 0 && Utf8Step(c, a).0.remaining > 0
    ensures ProcessUtf8(c, a + b).0 == ProcessUtf8(ProcessUtf8(c, a).0, b).0
    ensures ProcessUtf8(c, a + b).1 == ProcessUtf8(c, a).1 + ProcessUtf8(ProcessUtf8(c, a).0, b).1
  {
    var s := Utf8Step(c, a);
    AcrossAlone(c, a);
    if |b| == 0 {
      assert a + b == a;
    } else {
      AcrossMore(c, a, b);
      AppendEmpty(ProcessUtf8(s.0, b).1);
    }
  }

  /** A chunk that ends inside its first character prints nothing and leaves it pending. */
  lemma AcrossAlone(c: Pending, a: seq<u8>)
    requires Bounded(c) && |a| > 0 && Utf8Step(c, a).0.remaining > 0
    ensures ProcessUtf8(c, a) == (Utf8Step(c, a).0, [])
  {
    var s := Utf8Step(c, a);
    StepAcrossEnds(c, a);
    Unfold(c, a);
    var tail := a[s.2..];
    assert tail == [];
    assert ProcessUtf8(s.0, tail) == (s.0, []);
    AppendEmpty(s.1);
  }

  /** The bytes after such a chunk continue the pending character. */
  lemma AcrossMore(c: Pending, a: seq<u8>, b: seq<u8>)
    requires Bounded(c) && |a| > 0 && |b| > 0 && Utf8Step(c, a).0.remaining > 0
    ensures ProcessUtf8(c, a + b) == ProcessUtf8(Utf8Step(c, a).0, b)
  {
    var s := Utf8Step(c, a);
    StepAcross(c, a, b);
    var t := Utf8Step(s.0, b);
    Unfold(c, a + b);
    Unfold(s.0, b);
    DropPast(a, b, t.2);
  }

  lemma DropPast(a: seq<u8>, b: seq<u8>, n: nat)
    requires n <= |b|
    ensures (a + b)[|a| + n..] == b[n..]
  {
  }

  /**
   * Chunk boundaries do not matter to the UTF-8 path: text processed in
   * two calls prints what it prints in one, and leaves the same collector.
   */
  lemma {:induction false} Utf8Chunks(c: Pending, a: seq<u8>, b: seq<u8>)
    requires Bounded(c)
    ensures ProcessUtf8(c, a + b).0 == ProcessUtf8(ProcessUtf8(c, a).0, b).0
    ensures ProcessUtf8(c, a + b).1 == ProcessUtf8(c, a).1 + ProcessUtf8(ProcessUtf8(c, a).0, b).1
    decreases |a|
  {
    if |a| == 0 {
      assert a + b == b;
    } else if Utf8Step(c, a).0.remaining == 0 {
      var s := Utf8Step(c, a);
      Utf8Chunks(s.0, a[s.2..], b);
      ChunksComplete(c, a, b);
    } else {
      ChunksAcross(c, a, b);
    }
  }

  /** With nothing pending, an ASCII byte is printed as it is, without the collector. */
  lemma AsciiPrintedDirectly(c: Pending, bytes: seq<u8>)
    requires Bounded(c) && c.remaining == 0 && |bytes| > 0 && bytes[0] <= 0x7F
    ensures Utf8Step(c, bytes) == (c, [E.Print(ByteChar(bytes[0]))], 1)
  {
    Utf8.ExpectedBytesCountRanges(bytes[0]);
  }

  /** With nothing pending, a byte that starts no sequence is one round of one byte, printed as U+FFFD. */
  lemma UnclassifiedByte(c: Pending, bytes: seq<u8>)
    requires Bounded(c) && c.remaining == 0 && |bytes| > 0 && Utf8.ExpectedBytesCount(bytes[0]).None?
    ensures Utf8Step(c, bytes) == (EMPTY, [E.Print(REPLACEMENT_CHARACTER)], 1)
  {
    Utf8.ExpectedBytesCountRanges(bytes[0]);
    var one := bytes[..1];
    assert c.bytes + one == [bytes[0]];
    assert SequenceLength([bytes[0]]).None?;
    assert FromUtf8([bytes[0]]).Err?;
  }

  /** The encoding of one character, alone, prints that character and leaves nothing pending. */
  lemma OneCharacter(ch: char)
    ensures ProcessUtf8(EMPTY, Encode(ch)) == (EMPTY, [E.Print(ch)])
  {
    var e := Encode(ch);
    FirstRound(ch, e);
    Unfold(EMPTY, e);
    assert e[|e|..] == [];
    assert [E.Print(ch)] + [] == [E.Print(ch)];
  }

  /** The first round on an encoding followed by anything takes exactly that encoding. */
  lemma FirstRound(ch: char, bytes: seq<u8>)
    requires |Encode(ch)| <= |bytes| && bytes[..|Encode(ch)|] == Encode(ch)
    ensures Utf8Step(EMPTY, bytes) == (EMPTY, [E.Print(ch)], |Encode(ch)|)
  {
    var e := Encode(ch);
    EncodeDecodes(ch, bytes[|e|..]);
    assert e + bytes[|e|..] == bytes;
    Utf8.ExpectedBytesCountOfWellFormed(bytes);
    StepByWant(EMPTY, bytes);
    if |e| == 1 {
      assert ByteChar(bytes[0]) == ch;
    } else {
      Utf8.IntoCharOfEncoding(ch);
      assert [] + bytes[..|e|] == e;
    }
  }

  /** Valid UTF-8 prints exactly the characters it encodes, however it was assembled. */
  lemma {:induction false} DecodesValidText(cs: seq<char>)
    ensures ProcessUtf8(EMPTY, EncodeAll(cs)) == (EMPTY, E.Prints(cs))
    decreases |cs|
  {
    if |cs| > 0 {
      Utf8Chunks(EMPTY, Encode(cs[0]), EncodeAll(cs[1..]));
      OneCharacter(cs[0]);
      DecodesValidText(cs[1..]);
    }
  }

  /**
   * A character whose encoding is cut after `k` bytes: the first part
   * prints nothing and leaves it pending, the second prints it once.
   */
  lemma SplitCharacter(ch: char, k: nat)
    requires 0 < k < |Encode(ch)|
    ensures ProcessUtf8(EMPTY, Encode(ch)[..k]) == (Pending(Encode(ch)[..k], |Encode(ch)| - k), [])
    ensures ProcessUtf8(Pending(Encode(ch)[..k], |Encode(ch)| - k), Encode(ch)[k..]) == (EMPTY, [E.Print(ch)])
  {
    var e := Encode(ch);
    var a := e[..k];
    var pending := Pending(a, |e| - k);
    PartialRound(ch, k);
    Unfold(EMPTY, a);
    assert a[k..] == [];
    assert ProcessUtf8(pending, []) == (pending, []);
    E.EmptyEnds([], [], [], []);
    assert ProcessUtf8(EMPTY, a) == (pending, []);
    OneCharacter(ch);
    assert a + e[k..] == e;
    Utf8Chunks(EMPTY, a, e[k..]);
    var rest := ProcessUtf8(pending, e[k..]);
    assert ProcessUtf8(EMPTY, a + e[k..]) == (EMPTY, [E.Print(ch)]);
    assert rest.0 == EMPTY;
    assert [] + rest.1 == rest.1;
    assert rest.1 == [E.Print(ch)];
  }

  /** A round on a proper prefix of an encoding collects it and waits for the rest. */
  lemma PartialRound(ch: char, k: nat)
    requires 0 < k < |Encode(ch)|
    ensures Utf8Step(EMPTY, Encode(ch)[..k]) == (Pending(Encode(ch)[..k], |Encode(ch)| - k), [], k)
  {
    var e := Encode(ch);
    EncodeDecodes(ch, []);
    assert e + [] == e;
    Utf8.ExpectedBytesCountOfWellFormed(e);
    var a := e[..k];
    assert a[0] == e[0];
    StepByWant(EMPTY, a);
    assert a[..k] == a && [] + a == a;
  }

  /** Test `process_mixed`, the characters: D0 then 96 print 'Ж' once; E6 BC A2 prints '漢'. */
  lemma ZheAndHan()
    ensures ProcessUtf8(EMPTY, [0xD0]) == (Pending([0xD0], 1), [])
    ensures ProcessUtf8(Pending([0xD0], 1), [0x96]) == (EMPTY, [E.Print('\U{0416}')])
    ensures ProcessUtf8(EMPTY, [0xE6, 0xBC, 0xA2]) == (EMPTY, [E.Print('\U{6F22}')])
  {
    Zhe();
    Han();
  }

  /** 'Ж' is D0 96: split after its first byte, it is printed once the second arrives. */
  lemma Zhe()
    ensures ProcessUtf8(EMPTY, [0xD0]) == (Pending([0xD0], 1), [])
    ensures ProcessUtf8(Pending([0xD0], 1), [0x96]) == (EMPTY, [E.Print('\U{0416}')])
  {
    assert Encode('\U{0416}') == [0xD0, 0x96];
    SplitCharacter('\U{0416}', 1);
    assert [0xD0, 0x96][..1] == [0xD0] && [0xD0, 0x96][1..] == [0x96];
  }

  /** '漢' is E6 BC A2. */
  lemma Han()
    ensures ProcessUtf8(EMPTY, [0xE6, 0xBC, 0xA2]) == (EMPTY, [E.Print('\U{6F22}')])
  {
    assert Encode('\U{6F22}') == [0xE6, 0xBC, 0xA2];
    OneCharacter('\U{6F22}');
  }

  // ---------------------------------------------------------------------
  // Properties of `process`.

  /** A run of bytes none of which is in the C0 set. */
  predicate NoC0(s: seq<u8>)
  {
    forall i :: 0 <= i < |s| ==> !C0.InC0Set(s[i])
  }

  /** From a parser outside any sequence, text without C0 bytes goes to `process_utf8` alone. */
  lemma ProcessText(c: Pending, p: SM.SState, text: seq<u8>)
    requires Bounded(c) && p.Valid() && !SM.InEscapeSequence(p) && NoC0(text)
    ensures Process(c, p, text) == Some((ProcessUtf8(c, text).0, p, ProcessUtf8(c, text).1))
  {
    assert text[0..] == text;
    AppendEmpty(ProcessUtf8(c, text).1);
  }

  /**
   * Text split across two `process` calls prints what it prints in one
   * call: a character cut by the chunk boundary is printed once, when its
   * last byte arrives.
   */
  lemma TextInChunks(c: Pending, p: SM.SState, a: seq<u8>, b: seq<u8>)
    requires Bounded(c) && p.Valid() && !SM.InEscapeSequence(p) && NoC0(a) && NoC0(b)
    ensures var first := Process(c, p, a);
      first.Some? && first.value.1 == p
      && var second := Process(first.value.0, p, b);
      second.Some? && second.value.1 == p
      && ProcessUtf8(c, a + b) == (second.value.0, first.value.2 + second.value.2)
  {
    ProcessText(c, p, a);
    ProcessText(ProcessUtf8(c, a).0, p, b);
    Utf8Chunks(c, a, b);
  }

  /** Every proper prefix of `s` leaves the parser, without a panic, inside a sequence. */
  ghost predicate StaysInside(p: SM.SState, s: seq<u8>)
    requires p.Valid()
  {
    forall k :: 0 <= k < |s| ==> SM.Feed(p, s[..k]).Some? && SM.InEscapeSequence(SM.Feed(p, s[..k]).value.0)
  }

  /** Every proper prefix of `s` but the empty one leaves the parser, without a panic, inside a sequence. */
  ghost predicate InsideAfterFirst(p: SM.SState, s: seq<u8>)
    requires p.Valid()
  {
    forall k :: 1 <= k < |s| ==> SM.Feed(p, s[..k]).Some? && SM.InEscapeSequence(SM.Feed(p, s[..k]).value.0)
  }

  /** After the first byte of a run that stays inside, the rest of the run stays inside. */
  lemma StaysInsideTail(p: SM.SState, s: seq<u8>)
    requires p.Valid() && |s| > 0 && SM.Known(p.state, s[0]) && InsideAfterFirst(p, s)
    ensures StaysInside(SM.Advance(p, s[0]).0, s[1..])
  {
    var q := SM.Advance(p, s[0]).0;
    forall k | 0 <= k < |s| - 1
      ensures SM.Feed(q, s[1..][..k]).Some? && SM.InEscapeSequence(SM.Feed(q, s[1..][..k]).value.0)
    {
      assert s[..k + 1][0] == s[0] && s[..k + 1][1..] == s[1..][..k];
    }
  }

  /**
   * The byte loop runs through a run that stays inside a sequence, and
   * stops right after it when the parser is then outside.
   */
  lemma {:induction false} InSequenceRuns(p: SM.SState, s: seq<u8>, more: seq<u8>)
    requires p.Valid() && SM.Feed(p, s).Some? && StaysInside(p, s)
    requires |more| > 0 ==> !SM.InEscapeSequence(SM.Feed(p, s).value.0)
    ensures InSequence(p, s + more) == Some((SM.Feed(p, s).value.0, SM.Feed(p, s).value.1, |s|))
    decreases |s|
  {
    if |s| == 0 {
      assert s + more == more;
    } else {
      assert s[..0] == [];
      assert SM.Known(p.state, s[0]);
      var (q, k1) := SM.Advance(p, s[0]);
      var rest := SM.Feed(q, s[1..]);
      assert rest.Some? && SM.Feed(p, s).value == (rest.value.0, k1 + rest.value.1);
      StaysInsideTail(p, s);
      InSequenceRuns(q, s[1..], more);
      DropAppend(s, more, 1);
      assert (s + more)[0] == s[0];
    }
  }

  /**
   * One round of the outer loop: the text up to a C0 byte is printed (and
   * a character it leaves unfinished as U+FFFD), then the sequence the C0
   * byte starts is fed to the parser up to the point where the parser is
   * back outside, before anything that follows is looked at.
   */
  lemma TextLoopRound(c: Pending, p: SM.SState, text: seq<u8>, sq: seq<u8>, more: seq<u8>)
    requires Bounded(c) && p.Valid() && NoC0(text)
    requires |sq| > 0 && C0.InC0Set(sq[0]) && SM.Feed(p, sq).Some? && InsideAfterFirst(p, sq)
    requires |more| > 0 ==> !SM.InEscapeSequence(SM.Feed(p, sq).value.0)
    ensures var t := ProcessUtf8(c, text); var f := Flushed(t.0); var r := SM.Feed(p, sq).value;
      TextLoop(c, p, text + sq + more) == Prefixed(t.1 + f.1 + r.1, TextLoop(f.0, r.0, more))
  {
    var remaining := text + sq + more;
    RoundBoundary(text, sq, more);
    SequencePart(p, sq, more);
    var q := SM.Advance(p, sq[0]).0;
    var r1 := SM.Feed(q, sq[1..]).value;
    OuterRoundSplit(c, p, remaining, |text|, text, sq[0], sq[1..] + more, r1.0, r1.1, |sq| - 1);
    assert (sq[1..] + more)[|sq| - 1..] == more;
    var t := ProcessUtf8(c, text);
    E.CallsAssociative(t.1 + Flushed(t.0).1, SM.Advance(p, sq[0]).1, r1.1);
  }

  /** `OuterRound` with the input already split around its first C0 byte. */
  lemma OuterRoundSplit(c: Pending, p: SM.SState, bytes: seq<u8>, k: nat, head: seq<u8>, b0: u8, after: seq<u8>,
                        q2: SM.SState, k4: seq<E.Call>, n: nat)
    requires Bounded(c) && p.Valid() && C0.FirstIndexOfC0(bytes) == Some(k)
    requires bytes[..k] == head && bytes[k] == b0 && bytes[k + 1..] == after
    requires SM.Known(p.state, b0) && InSequence(SM.Advance(p, b0).0, after) == Some((q2, k4, n))
    ensures n <= |after|
    ensures TextLoop(c, p, bytes)
      == Prefixed(ProcessUtf8(c, head).1 + Flushed(ProcessUtf8(c, head).0).1 + SM.Advance(p, b0).1 + k4, TextLoop(EMPTY, q2, after[n..]))
  {
    OuterRound(c, p, bytes, k, ProcessUtf8(c, head).1 + Flushed(ProcessUtf8(c, head).0).1, SM.Advance(p, b0).1, q2, k4, n);
    assert bytes[k + 1 + n..] == after[n..];
  }

  /** The sequence part of such a round: its C0 byte, then the byte loop through the rest of `sq`. */
  lemma SequencePart(p: SM.SState, sq: seq<u8>, more: seq<u8>)
    requires p.Valid() && |sq| > 0 && C0.InC0Set(sq[0]) && SM.Feed(p, sq).Some? && InsideAfterFirst(p, sq)
    requires |more| > 0 ==> !SM.InEscapeSequence(SM.Feed(p, sq).value.0)
    ensures SM.Known(p.state, sq[0])
    ensures SM.Feed(SM.Advance(p, sq[0]).0, sq[1..]).Some?
    ensures InSequence(SM.Advance(p, sq[0]).0, sq[1..] + more)
      == Some((SM.Feed(SM.Advance(p, sq[0]).0, sq[1..]).value.0, SM.Feed(SM.Advance(p, sq[0]).0, sq[1..]).value.1, |sq| - 1))
    ensures SM.Feed(p, sq).value.0 == SM.Feed(SM.Advance(p, sq[0]).0, sq[1..]).value.0
    ensures SM.Feed(p, sq).value.1 == SM.Advance(p, sq[0]).1 + SM.Feed(SM.Advance(p, sq[0]).0, sq[1..]).value.1
  {
    SequenceHead(p, sq);
    RunAfterFirst(p, sq, more);
  }

  /** After the first byte of such a run, the byte loop takes the rest of it. */
  lemma RunAfterFirst(p: SM.SState, sq: seq<u8>, more: seq<u8>)
    requires p.Valid() && |sq| > 0 && SM.Known(p.state, sq[0]) && InsideAfterFirst(p, sq)
    requires SM.Feed(SM.Advance(p, sq[0]).0, sq[1..]).Some?
    requires |more| > 0 ==> !SM.InEscapeSequence(SM.Feed(SM.Advance(p, sq[0]).0, sq[1..]).value.0)
    ensures InSequence(SM.Advance(p, sq[0]).0, sq[1..] + more)
      == Some((SM.Feed(SM.Advance(p, sq[0]).0, sq[1..]).value.0, SM.Feed(SM.Advance(p, sq[0]).0, sq[1..]).value.1, |sq| - 1))
  {
    var q := SM.Advance(p, sq[0]).0;
    var tail := sq[1..];
    StaysInsideTail(p, sq);
    InSequenceRuns(q, tail, more);
    assert |tail| == |sq| - 1;
  }

  /** A run that starts with a C0 byte: the byte has a table entry, and `Feed` takes it first. */
  lemma SequenceHead(p: SM.SState, sq: seq<u8>)
    requires p.Valid() && |sq| > 0 && C0.InC0Set(sq[0]) && SM.Feed(p, sq).Some?
    ensures SM.Known(p.state, sq[0])
    ensures SM.Feed(SM.Advance(p, sq[0]).0, sq[1..]).Some?
    ensures SM.Feed(p, sq).value.0 == SM.Feed(SM.Advance(p, sq[0]).0, sq[1..]).value.0
    ensures SM.Feed(p, sq).value.1 == SM.Advance(p, sq[0]).1 + SM.Feed(SM.Advance(p, sq[0]).0, sq[1..]).value.1
  {
    C0.AllCharacterization(sq[0]);
    SM.KnownIff(p.state, sq[0]);
    FeedFirst(p, sq);
  }

  /** Where a round over `text + sq + more` splits, when `text` has no C0 byte and `sq` starts with one. */
  lemma RoundBoundary(text: seq<u8>, sq: seq<u8>, more: seq<u8>)
    requires NoC0(text) && |sq| > 0 && C0.InC0Set(sq[0])
    ensures C0.FirstIndexOfC0(text + sq + more) == Some(|text|)
    ensures (text + sq + more)[..|text|] == text && (text + sq + more)[|text|] == sq[0]
    ensures (text + sq + more)[|text| + 1..] == sq[1..] + more
    ensures (text + sq + more)[|text| + 1 + (|sq| - 1)..] == more
  {
    var remaining := text + sq + more;
    assert remaining == text + (sq + more);
    assert remaining[|text|] == sq[0];
    C0.FirstIndexInUnique(remaining, C0.ALL, |text|);
  }

  /** `Feed` over a run: its first byte, then the rest. */
  lemma FeedFirst(p: SM.SState, s: seq<u8>)
    requires p.Valid() && |s| > 0 && SM.Known(p.state, s[0]) && SM.Feed(p, s).Some?
    ensures SM.Feed(SM.Advance(p, s[0]).0, s[1..]).Some?
    ensures SM.Feed(p, s).value.0 == SM.Feed(SM.Advance(p, s[0]).0, s[1..]).value.0
    ensures SM.Feed(p, s).value.1 == SM.Advance(p, s[0]).1 + SM.Feed(SM.Advance(p, s[0]).0, s[1..]).value.1
  {
  }

  /** From outside any sequence, `process` is its outer loop. */
  lemma ProcessFromOutside(c: Pending, p: SM.SState, bytes: seq<u8>)
    requires Bounded(c) && p.Valid() && !SM.InEscapeSequence(p)
    ensures Process(c, p, bytes) == TextLoop(c, p, bytes)
  {
    assert bytes[0..] == bytes;
    match TextLoop(c, p, bytes)
    case None =>
    case Some((c1, p1, k)) => assert [] + k == k;
  }

  /** The last round of the outer loop: text, then a sequence that ends the chunk. */
  lemma LastRound(c: Pending, p: SM.SState, text: seq<u8>, sq: seq<u8>)
    requires Bounded(c) && p.Valid() && NoC0(text)
    requires |sq| > 0 && C0.InC0Set(sq[0]) && SM.Feed(p, sq).Some? && InsideAfterFirst(p, sq)
    ensures var t := ProcessUtf8(c, text); var f := Flushed(t.0); var r := SM.Feed(p, sq).value;
      TextLoop(c, p, text + sq) == Some((EMPTY, r.0, t.1 + f.1 + r.1))
  {
    TextLoopRound(c, p, text, sq, []);
    assert text + sq + [] == text + sq;
    var t := ProcessUtf8(c, text);
    var f := Flushed(t.0);
    var r := SM.Feed(p, sq).value;
    assert TextLoop(f.0, r.0, []) == Some((EMPTY, r.0, []));
    assert t.1 + f.1 + r.1 + [] == t.1 + f.1 + r.1;
  }

  /** A chunk that ends with a sequence: its text, what the text leaves unfinished, then the sequence. */
  lemma LastChunk(c: Pending, p: SM.SState, text: seq<u8>, sq: seq<u8>)
    requires Bounded(c) && p.Valid() && !SM.InEscapeSequence(p) && NoC0(text)
    requires |sq| > 0 && C0.InC0Set(sq[0]) && SM.Feed(p, sq).Some? && InsideAfterFirst(p, sq)
    ensures var t := ProcessUtf8(c, text); var f := Flushed(t.0); var r := SM.Feed(p, sq).value;
      Process(c, p, text + sq) == Some((EMPTY, r.0, t.1 + f.1 + r.1))
  {
    ProcessFromOutside(c, p, text + sq);
    LastRound(c, p, text, sq);
  }

  /** A byte-loop result `r` that starts after `n` bytes already consumed with calls `calls`. */
  function Extended(calls: seq<E.Call>, n: nat, r: Option<(SM.SState, seq<E.Call>, nat)>): Option<(SM.SState, seq<E.Call>, nat)>
  {
    match r
    case None => None
    case Some((q, k, m)) => Some((q, calls + k, n + m))
  }

  /** The byte loop takes one byte, then goes on from the parser that byte leads to. */
  lemma InSequenceStep(p: SM.SState, bytes: seq<u8>)
    requires p.Valid() && SM.InEscapeSequence(p) && |bytes| > 0 && SM.Known(p.state, bytes[0])
    ensures InSequence(p, bytes) == Extended(SM.Advance(p, bytes[0]).1, 1, InSequence(SM.Advance(p, bytes[0]).0, bytes[1..]))
  {
    var q := SM.Advance(p, bytes[0]).0;
    match InSequence(q, bytes[1..])
    case None =>
    case Some(_) =>
  }

  /** The byte loop after `n` bytes, once more: the invariant of the loops of `process`. */
  lemma InSequenceAdvances(goal: Option<(SM.SState, seq<E.Call>, nat)>, calls: seq<E.Call>, n: nat,
                           p: SM.SState, q: SM.SState, k: seq<E.Call>, bytes: seq<u8>)
    requires p.Valid() && SM.InEscapeSequence(p) && n < |bytes| && SM.Known(p.state, bytes[n])
    requires q == SM.Advance(p, bytes[n]).0 && k == SM.Advance(p, bytes[n]).1
    requires goal == Extended(calls, n, InSequence(p, bytes[n..]))
    ensures goal == Extended(calls + k, n + 1, InSequence(q, bytes[n + 1..]))
  {
    InSequenceAt(p, bytes, n);
    ExtendedTwice(calls, n, k, 1, InSequence(q, bytes[n + 1..]));
  }

  /** `InSequenceStep` at index `n` of `bytes`. */
  lemma InSequenceAt(p: SM.SState, bytes: seq<u8>, n: nat)
    requires p.Valid() && SM.InEscapeSequence(p) && n < |bytes| && SM.Known(p.state, bytes[n])
    ensures InSequence(p, bytes[n..]) == Extended(SM.Advance(p, bytes[n]).1, 1, InSequence(SM.Advance(p, bytes[n]).0, bytes[n + 1..]))
  {
    var rest := bytes[n..];
    assert rest[0] == bytes[n] && rest[1..] == bytes[n + 1..];
    InSequenceStep(p, rest);
  }

  /** The loops of `process` panic on a byte inside a sequence that has no table entry. */
  lemma InSequenceStops(goal: Option<(SM.SState, seq<E.Call>, nat)>, calls: seq<E.Call>, n: nat, p: SM.SState, bytes: seq<u8>)
    requires p.Valid() && SM.InEscapeSequence(p) && n < |bytes| && !SM.Known(p.state, bytes[n])
    requires goal == Extended(calls, n, InSequence(p, bytes[n..]))
    ensures goal.None?
  {
  }

  /** The loops of `process` stop once the parser is outside or the bytes run out. */
  lemma InSequenceDone(goal: Option<(SM.SState, seq<E.Call>, nat)>, calls: seq<E.Call>, n: nat, p: SM.SState, bytes: seq<u8>)
    requires p.Valid() && n <= |bytes| && (!SM.InEscapeSequence(p) || n == |bytes|)
    requires goal == Extended(calls, n, InSequence(p, bytes[n..]))
    ensures goal == Some((p, calls, n))
  {
    assert InSequence(p, bytes[n..]) == Some((p, [], 0));
    assert calls + [] == calls;
  }

  /** Extending by nothing changes nothing. */
  lemma ExtendedByNothing(r: Option<(SM.SState, seq<E.Call>, nat)>)
    ensures Extended([], 0, r) == r
  {
    match r
    case None =>
    case Some((q, k, m)) => assert [] + k == k;
  }

  /** Prefixing nothing changes nothing. */
  lemma PrefixedByNothing(r: Option<(Pending, SM.SState, seq<E.Call>)>)
    ensures Prefixed([], r) == r
  {
    match r
    case None =>
    case Some((c, p, k)) => assert [] + k == k;
  }

  /** Extending twice is extending once by both. */
  lemma ExtendedTwice(a: seq<E.Call>, i: nat, b: seq<E.Call>, j: nat, r: Option<(SM.SState, seq<E.Call>, nat)>)
    ensures Extended(a, i, Extended(b, j, r)) == Extended(a + b, i + j, r)
  {
    match r
    case None =>
    case Some((q, k, m)) => E.CallsAssociative(a, b, k);
  }

  /** Calls made in front of calls made in front of a result. */
  lemma PrefixedTwice(a: seq<E.Call>, b: seq<E.Call>, r: Option<(Pending, SM.SState, seq<E.Call>)>)
    ensures Prefixed(a, Prefixed(b, r)) == Prefixed(a + b, r)
  {
    match r
    case None =>
    case Some((c, p, k)) => E.CallsAssociative(a, b, k);
  }

  /** Inside a sequence, `process` hands the next byte to the parser and goes on with the rest. */
  lemma ProcessInside(c: Pending, p: SM.SState, bytes: seq<u8>)
    requires Bounded(c) && p.Valid() && SM.InEscapeSequence(p) && |bytes| > 0 && SM.Known(p.state, bytes[0])
    ensures var (q, k) := SM.Advance(p, bytes[0]);
      Process(c, p, bytes) == Prefixed(k, Process(c, q, bytes[1..]))
  {
    var (q, k) := SM.Advance(p, bytes[0]);
    match InSequence(q, bytes[1..])
    case None =>
    case Some((q2, k2, n)) =>
      assert bytes[n + 1..] == bytes[1..][n..];
      PrefixedTwice(k, k2, TextLoop(c, q2, bytes[1..][n..]));
  }

  /**
   * Inside any sequence but an OSC string, a byte from 0xA0 up has no
   * table entry: `process` panics on it.
   */
  lemma ProcessPanics(c: Pending, p: SM.SState, bytes: seq<u8>)
    requires Bounded(c) && p.Valid() && SM.InEscapeSequence(p) && |bytes| > 0 && !SM.Known(p.state, bytes[0])
    ensures Process(c, p, bytes).None?
  {
  }

  /** The outer loop on text without a C0 byte: all of it goes to `process_utf8`. */
  lemma TextLoopText(c: Pending, p: SM.SState, bytes: seq<u8>)
    requires Bounded(c) && p.Valid() && |bytes| > 0 && C0.FirstIndexOfC0(bytes).None?
    ensures TextLoop(c, p, bytes) == Some((ProcessUtf8(c, bytes).0, p, ProcessUtf8(c, bytes).1))
  {
  }

  /** A C0 byte has a table entry in every state. */
  lemma C0IsKnown(p: SM.SState, b: u8)
    requires p.Valid() && C0.InC0Set(b)
    ensures SM.Known(p.state, b)
  {
    C0.AllCharacterization(b);
    SM.KnownIff(p.state, b);
  }

  /**
   * The outer loop at a C0 byte at index `k`: the text before it, a U+FFFD
   * for what the text leaves unfinished, the C0 byte, then `process` from
   * the parser it leads to.
   */
  lemma TextLoopAtC0(c: Pending, p: SM.SState, bytes: seq<u8>, k: nat)
    requires Bounded(c) && p.Valid() && C0.FirstIndexOfC0(bytes) == Some(k)
    ensures SM.Known(p.state, bytes[k])
    ensures var t := ProcessUtf8(c, bytes[..k]);
      TextLoop(c, p, bytes) == Prefixed(t.1 + Flushed(t.0).1 + SM.Advance(p, bytes[k]).1, Process(EMPTY, SM.Advance(p, bytes[k]).0, bytes[k + 1..]))
  {
    var rest := bytes[k..];
    assert rest[0] == bytes[k] && rest[1..] == bytes[k + 1..];
    C0IsKnown(p, rest[0]);
    var t := ProcessUtf8(c, bytes[..k]);
    var f := Flushed(t.0);
    assert f.0 == EMPTY;
    var q := SM.Advance(p, rest[0]).0;
    var k3 := SM.Advance(p, rest[0]).1;
    var run := InSequence(q, rest[1..]);
    if run.Some? {
      var n := run.value.2;
      assert n <= |rest| - 1;
      assert rest[1 + n..] == rest[1..][n..];
      PrefixedTwice(t.1 + f.1 + k3, run.value.1, TextLoop(EMPTY, run.value.0, rest[1..][n..]));
    }
  }

  /**
   * The invariant of the outer loop of `process`, carried over one round
   * that stops at the C0 byte at index `k` of `bytes`: the calls of the
   * round are appended, and the loop goes on after the bytes the parser
   * took.
   */
  lemma OuterRound(c: Pending, p: SM.SState, bytes: seq<u8>, k: nat, text: seq<E.Call>, k3: seq<E.Call>, q2: SM.SState, k4: seq<E.Call>, n: nat)
    requires Bounded(c) && p.Valid() && C0.FirstIndexOfC0(bytes) == Some(k) && SM.Known(p.state, bytes[k])
    requires text == ProcessUtf8(c, bytes[..k]).1 + Flushed(ProcessUtf8(c, bytes[..k]).0).1
    requires k3 == SM.Advance(p, bytes[k]).1
    requires InSequence(SM.Advance(p, bytes[k]).0, bytes[k + 1..]) == Some((q2, k4, n))
    ensures TextLoop(c, p, bytes) == Prefixed(text + k3 + k4, TextLoop(EMPTY, q2, bytes[k + 1 + n..]))
  {
    TextLoopAtC0(c, p, bytes, k);
    DropTwice(bytes, k + 1, n);
    PrefixedTwice(text + k3, k4, TextLoop(EMPTY, q2, bytes[k + 1 + n..]));
  }

  /** A round of the outer loop whose sequence reaches a byte without a table entry panics. */
  lemma OuterRoundPanics(c: Pending, p: SM.SState, bytes: seq<u8>, k: nat)
    requires Bounded(c) && p.Valid() && C0.FirstIndexOfC0(bytes) == Some(k) && SM.Known(p.state, bytes[k])
    requires InSequence(SM.Advance(p, bytes[k]).0, bytes[k + 1..]).None?
    ensures TextLoop(c, p, bytes).None?
  {
    TextLoopAtC0(c, p, bytes, k);
  }

  /** Bytes below 0xA0 never reach a missing table entry: the byte loop does not panic on them. */
  lemma {:induction false} InSequenceNoPanic(p: SM.SState, bytes: seq<u8>)
    requires p.Valid() && forall i :: 0 <= i < |bytes| ==> bytes[i] < 0xA0
    ensures InSequence(p, bytes).Some?
    decreases |bytes|
  {
    if SM.InEscapeSequence(p) && |bytes| > 0 {
      SM.KnownIff(p.state, bytes[0]);
      InSequenceNoPanic(SM.Advance(p, bytes[0]).0, bytes[1..]);
    }
  }

  /** Bytes below 0xA0 never make the outer loop panic. */
  lemma {:induction false} TextLoopNoPanic(c: Pending, p: SM.SState, bytes: seq<u8>)
    requires Bounded(c) && p.Valid() && forall i :: 0 <= i < |bytes| ==> bytes[i] < 0xA0
    ensures TextLoop(c, p, bytes).Some?
    decreases |bytes|, 1
  {
    if |bytes| > 0 {
      match C0.FirstIndexOfC0(bytes)
      case None =>
      case Some(k) =>
        TextLoopAtC0(c, p, bytes, k);
        var f := Flushed(ProcessUtf8(c, bytes[..k]).0);
        var q := SM.Advance(p, bytes[k]).0;
        ProcessNoPanic(f.0, q, bytes[k + 1..]);
    }
  }

  /** A chunk of bytes below 0xA0 never makes `process` panic, whatever the collector and the parser hold. */
  lemma {:induction false} ProcessNoPanic(c: Pending, p: SM.SState, bytes: seq<u8>)
    requires Bounded(c) && p.Valid() && forall i :: 0 <= i < |bytes| ==> bytes[i] < 0xA0
    ensures Process(c, p, bytes).Some?
    decreases |bytes|, 2
  {
    InSequenceNoPanic(p, bytes);
    var (q, k, n) := InSequence(p, bytes).value;
    TextLoopNoPanic(c, q, bytes[n..]);
  }

  /** ASCII text with nothing pending prints byte by byte. */
  lemma {:induction false} AsciiText(c: Pending, s: seq<u8>)
    requires Bounded(c) && c.remaining == 0 && forall i :: 0 <= i < |s| ==> s[i] <= 0x7F
    ensures ProcessUtf8(c, s) == (c, E.Prints(VteProperties.Latin(s)))
    decreases |s|
  {
    if |s| > 0 {
      AsciiPrintedDirectly(c, s);
      AsciiText(c, s[1..]);
      assert VteProperties.Latin(s) == [ByteChar(s[0])] + VteProperties.Latin(s[1..]);
    }
  }

  /** Every proper prefix of a control sequence from a new parser is inside the sequence. */
  lemma CsiStaysInside(s: seq<u8>, f: u8)
    requires VteCsi.ParamString(s) && 0x40 <= f <= 0x7E && |s| + 3 <= V.MAX_OSC_RAW
    ensures InsideAfterFirst(SM.INITIAL, VteCsi.Csi(s, f))
  {
    var bytes := VteCsi.Csi(s, f);
    VteSequences.CsiPrefixInside(V.INITIAL, s);
    forall k | 1 <= k < |bytes|
      ensures SM.Feed(SM.INITIAL, bytes[..k]).Some? && SM.InEscapeSequence(SM.Feed(SM.INITIAL, bytes[..k]).value.0)
    {
      assert bytes[..k] == ([C0.ESC, 0x5B] + s)[..k];
      assert forall i :: 0 <= i < k ==> bytes[..k][i] < 0xA0;
      SM.FromInitial(bytes[..k]);
    }
  }

  /** BEL from the ground state is executed in place. */
  lemma BelStep(p: SM.SState)
    requires p.Valid() && p.state == Ground
    ensures SM.Known(Ground, C0.BEL) && SM.Advance(p, C0.BEL) == (p, [E.Execute(C0.BEL)])
    ensures SM.Feed(p, [C0.BEL]) == Some((p, [E.Execute(C0.BEL)]))
  {
    assert Transition(Ground, C0.BEL) == Some((Anywhere, Some(Execute)));
    assert [E.Execute(C0.BEL)] + [] == [E.Execute(C0.BEL)];
  }

  const HELLO: seq<u8> := [0x68, 0x65, 0x6C, 0x6C, 0x6F]

  /** `CSI 38:2:255:0:255;1 m`. */
  const SGR: seq<u8> := VteCsi.Csi(VteCsi.COLOUR + [PARAM_SEPARATOR, 0x31], 0x6D)

  const SGR_CALL: E.Call := E.CsiDispatch([[38, 2, 255, 0, 255], [1]], [], false, 'm')

  /** "hello": no C0 byte, printed byte by byte. */
  lemma HelloText()
    ensures NoC0(HELLO) && ProcessUtf8(EMPTY, HELLO) == (EMPTY, E.Prints("hello"))
  {
    forall i | 0 <= i < |HELLO|
      ensures !C0.InC0Set(HELLO[i])
    {
      C0.AllCharacterization(HELLO[i]);
    }
    AsciiText(EMPTY, HELLO);
    assert VteProperties.Latin(HELLO) == "hello";
  }

  /** The SGR sequence from a new parser: it starts with a C0 byte and dispatches once, back in the ground state. */
  lemma SgrSequence()
    ensures |SGR| > 0 && C0.InC0Set(SGR[0])
    ensures SM.Feed(SM.INITIAL, SGR).Some? && SM.Feed(SM.INITIAL, SGR).value.0.state == Ground
    ensures SM.Feed(SM.INITIAL, SGR).value.1 == [SGR_CALL]
  {
    SM.CsiSubparameters();
    C0.AllCharacterization(C0.ESC);
  }

  /** Every proper prefix of the SGR sequence but the empty one is inside it. */
  lemma SgrInside()
    ensures SM.INITIAL.Valid() && InsideAfterFirst(SM.INITIAL, SGR)
  {
    SM.InitialValid();
    CsiStaysInside(VteCsi.COLOUR + [PARAM_SEPARATOR, 0x31], 0x6D);
  }

  /** The first round of the first chunk: "hello", then BEL executed in place. */
  lemma HelloBel(p: SM.SState)
    requires p == SM.INITIAL
    ensures p.Valid() && TextLoop(EMPTY, p, HELLO + [C0.BEL] + SGR)
      == Prefixed(E.Prints("hello") + [] + [E.Execute(C0.BEL)], TextLoop(EMPTY, p, SGR))
  {
    SM.InitialValid();
    HelloText();
    SgrSequence();
    SgrInside();
    BelStep(p);
    C0.AllCharacterization(C0.BEL);
    assert InsideAfterFirst(p, [C0.BEL]);
    TextLoopRound(EMPTY, p, HELLO, [C0.BEL], SGR);
  }

  /** The second round of the first chunk: the SGR sequence alone. */
  lemma SgrAlone(p: SM.SState)
    requires p == SM.INITIAL
    ensures p.Valid() && SM.Feed(p, SGR).Some?
    ensures TextLoop(EMPTY, p, SGR) == Some((EMPTY, SM.Feed(p, SGR).value.0, [SGR_CALL]))
  {
    SM.InitialValid();
    SgrSequence();
    SgrInside();
    assert [] + SGR == SGR;
    assert ProcessUtf8(EMPTY, []) == (EMPTY, []);
    LastRound(EMPTY, p, [], SGR);
    assert [] + [] + [SGR_CALL] == [SGR_CALL];
  }

  /** Test `process_mixed`, first chunk: text, BEL, then a whole SGR sequence. */
  lemma MixedFirstChunk(p: SM.SState)
    requires p == SM.INITIAL
    ensures p.Valid() && SM.Feed(p, SGR).Some? && SM.Feed(p, SGR).value.0.state == Ground
    ensures Process(EMPTY, p, HELLO + [C0.BEL] + SGR)
      == Some((EMPTY, SM.Feed(p, SGR).value.0, E.Prints("hello") + [E.Execute(C0.BEL), SGR_CALL]))
  {
    SM.InitialValid();
    SgrSequence();
    ProcessFromOutside(EMPTY, p, HELLO + [C0.BEL] + SGR);
    HelloBel(p);
    SgrAlone(p);
    Regroup(E.Prints("hello"), E.Execute(C0.BEL), SGR_CALL);
  }

  lemma Regroup(x: seq<E.Call>, a: E.Call, b: E.Call)
    ensures x + [] + [a] + [b] == x + [a, b]
  {
  }

  /**
   * Test `process_mixed`, the later chunks, from any parser in the ground
   * state: D0 then 96 print 'Ж' once, E6 BC A2 prints '漢', and E6 BC cut
   * off by ESC prints U+FFFD before ESC takes the parser into Escape.
   */
  lemma MixedLaterChunks(p: SM.SState)
    requires p.Valid() && p.state == Ground
    ensures Process(EMPTY, p, [0xD0]) == Some((Pending([0xD0], 1), p, []))
    ensures Process(Pending([0xD0], 1), p, [0x96]) == Some((EMPTY, p, [E.Print('\U{0416}')]))
    ensures Process(EMPTY, p, [0xE6, 0xBC, 0xA2]) == Some((EMPTY, p, [E.Print('\U{6F22}')]))
    ensures SM.Feed(p, [C0.ESC]).Some?
    ensures Process(EMPTY, p, [0xE6, 0xBC, C0.ESC]) == Some((EMPTY, SM.Feed(p, [C0.ESC]).value.0, [E.Print(REPLACEMENT_CHARACTER)]))
  {
    ZheChunks(p);
    HanChunk(p);
    InterruptedHan(p);
  }

  lemma ZheChunks(p: SM.SState)
    requires p.Valid() && p.state == Ground
    ensures Process(EMPTY, p, [0xD0]) == Some((Pending([0xD0], 1), p, []))
    ensures Process(Pending([0xD0], 1), p, [0x96]) == Some((EMPTY, p, [E.Print('\U{0416}')]))
  {
    C0.AllCharacterization(0xD0);
    C0.AllCharacterization(0x96);
    Zhe();
    ProcessText(EMPTY, p, [0xD0]);
    ProcessText(Pending([0xD0], 1), p, [0x96]);
  }

  lemma HanChunk(p: SM.SState)
    requires p.Valid() && p.state == Ground
    ensures Process(EMPTY, p, [0xE6, 0xBC, 0xA2]) == Some((EMPTY, p, [E.Print('\U{6F22}')]))
  {
    C0.AllCharacterization(0xE6);
    C0.AllCharacterization(0xBC);
    C0.AllCharacterization(0xA2);
    Han();
    ProcessText(EMPTY, p, [0xE6, 0xBC, 0xA2]);
  }

  /** The first two bytes of '漢': no C0 byte, nothing printed, one byte still expected. */
  lemma HanPrefix()
    ensures NoC0([0xE6, 0xBC])
    ensures ProcessUtf8(EMPTY, [0xE6, 0xBC]) == (Pending([0xE6, 0xBC], 1), [])
  {
    C0.AllCharacterization(0xE6);
    C0.AllCharacterization(0xBC);
    assert Encode('\U{6F22}') == [0xE6, 0xBC, 0xA2];
    assert Encode('\U{6F22}')[..2] == [0xE6, 0xBC];
    SplitCharacter('\U{6F22}', 2);
  }

  /** The last chunk of `process_mixed`: an unfinished '漢' and ESC. */
  lemma InterruptedHan(p: SM.SState)
    requires p.Valid() && p.state == Ground
    ensures SM.Feed(p, [C0.ESC]).Some?
    ensures Process(EMPTY, p, [0xE6, 0xBC, C0.ESC]) == Some((EMPTY, SM.Feed(p, [C0.ESC]).value.0, [E.Print(REPLACEMENT_CHARACTER)]))
  {
    var text: seq<u8> := [0xE6, 0xBC];
    assert [0xE6, 0xBC, C0.ESC] == text + [C0.ESC];
    HanPrefix();
    EscAlone(p);
    LastChunk(EMPTY, p, text, [C0.ESC]);
    AroundNothing(E.Print(REPLACEMENT_CHARACTER));
  }

  /** ESC from the ground state is a sequence of its own, calling nothing. */
  lemma EscAlone(p: SM.SState)
    requires p.Valid() && p.state == Ground
    ensures C0.InC0Set(C0.ESC) && InsideAfterFirst(p, [C0.ESC])
    ensures SM.Feed(p, [C0.ESC]).Some? && SM.Feed(p, [C0.ESC]).value.1 == []
  {
    SM.EscFromGround(p);
    C0.AllCharacterization(C0.ESC);
  }

  lemma AroundNothing(x: E.Call)
    ensures [] + [x] + [] == [x]
  {
  }

  /** Test `process_mixed`: five chunks from a new parser and a new processor. */
  lemma ProcessMixed()
    ensures var r1 := Process(EMPTY, SM.INITIAL, HELLO + [C0.BEL] + SGR);
      r1.Some? && var r2 := Process(r1.value.0, r1.value.1, [0xD0]);
      r2.Some? && var r3 := Process(r2.value.0, r2.value.1, [0x96]);
      r3.Some? && var r4 := Process(r3.value.0, r3.value.1, [0xE6, 0xBC, 0xA2]);
      r4.Some? && var r5 := Process(r4.value.0, r4.value.1, [0xE6, 0xBC, C0.ESC]);
      r5.Some? && r1.value.2 + r2.value.2 + r3.value.2 + r4.value.2 + r5.value.2 == MIXED_CALLS
  {
    MixedFirstChunk(SM.INITIAL);
    var q := SM.Feed(SM.INITIAL, SGR).value.0;
    MixedLaterChunks(q);
    MixedCalls();
  }

  /** The calls `process_mixed` expects, in order. */
  const MIXED_CALLS: seq<E.Call> := [
    E.Print('h'), E.Print('e'), E.Print('l'), E.Print('l'), E.Print('o'), E.Execute(0x07), SGR_CALL,
    E.Print('\U{0416}'), E.Print('\U{6F22}'), E.Print(REPLACEMENT_CHARACTER)]

  lemma MixedCalls()
    ensures E.Prints("hello") + [E.Execute(C0.BEL), SGR_CALL] + [] + [E.Print('\U{0416}')] + [E.Print('\U{6F22}')]
      + [E.Print(REPLACEMENT_CHARACTER)] == MIXED_CALLS
  {
    assert E.Prints("hello") == [E.Print('h'), E.Print('e'), E.Print('l'), E.Print('l'), E.Print('o')];
  }
}
