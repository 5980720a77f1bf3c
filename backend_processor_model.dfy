/**
 * swiftty_backend's `Processor` as values. It drives swiftty_vte's
 * byte-at-a-time parser with the same two byte loops as swiftty_vte's own
 * processor, and differs from it in three ways:
 * - text is cut only at the eleven controls of `C0_ARRAY`;
 * - every text byte goes through the four-byte buffer, since there is no
 *   ASCII shortcut;
 * - what the text leaves unfinished before a control stays in the buffer,
 *   because the check that follows the text tests `is_ready_to_consume_utf8`,
 *   which cannot hold there.
 */
module BackendProcessorModel {
  import opened Common
  import Utf8Decode
  import Utf8
  import BackendUtf8
  import BackendScan
  import C0
  import VteOsc
  import VteProperties
  import SM = SwifttyModel
  import PM = SwifttyProcessorModel
  import opened Table
  import E = Executor

  // ---------------------------------------------------------------------
  // The UTF-8 buffer.

  /** `is_ready_to_consume_utf8`: nothing more is wanted and something was collected. */
  predicate IsReady(c: PM.Pending)
  {
    c.remaining == 0 && |c.bytes| > 0
  }

  /**
   * The test `if self.is_ready_to_consume_utf8() { self.consume_utf8() }`:
   * `consume_utf8` prints the collected bytes as one character and zeroes
   * both counters.
   */
  function ConsumeIfReady(c: PM.Pending): (r: (PM.Pending, seq<E.Call>))
  {
    if IsReady(c) then (PM.EMPTY, [E.Print(Utf8.IntoChar(c.bytes))]) else (c, [])
  }

  /**
   * `want_bytes_count` (lines 73-81): what a pending sequence still
   * expects, else the length its lead byte gives, else 1.
   */
  function WantBytes(c: PM.Pending, lead: u8): (w: nat)
    requires PM.Bounded(c)
    ensures 1 <= w && |c.bytes| + w <= Utf8.MAX_LENGTH
    ensures c.remaining > 0 ==> w == c.remaining
    ensures c.remaining == 0 ==> w == if BackendUtf8.ExpectedBytesCount(lead).Some? then BackendUtf8.ExpectedBytesCount(lead).value else 1
  {
    BackendUtf8.AgreesWithVte(lead);
    Utf8.ExpectedBytesCountRanges(lead);
    if c.remaining > 0 then c.remaining
    else match BackendUtf8.ExpectedBytesCount(lead)
      case Some(count) => count
      case None => 1
  }

  /**
   * One round of the loop of `process_utf8` (lines 73-96): copy
   * `min(want, |bytes|)` bytes into the buffer, store how many are still
   * wanted, and consume the character if it is ready.
   */
  function Round(c: PM.Pending, bytes: seq<u8>): (r: (PM.Pending, seq<E.Call>, nat))
    requires PM.Bounded(c) && |bytes| > 0
    ensures PM.Bounded(r.0) && 1 <= r.2 <= |bytes|
  {
    var want := WantBytes(c, bytes[0]);
    var n := PM.Min(want, |bytes|);
    var filled := PM.Pending(c.bytes + bytes[..n], want - n);
    var consumed := ConsumeIfReady(filled);
    (consumed.0, consumed.1, n)
  }

  /**
   * `process_utf8`: rounds until the bytes run out. The buffer it leaves
   * is never ready to consume, which is why the test after the text in
   * `process` (line 48) cannot fire.
   */
  function ProcessUtf8(c: PM.Pending, bytes: seq<u8>): (r: (PM.Pending, seq<E.Call>))
    requires PM.Bounded(c)
    ensures PM.Bounded(r.0) && !IsReady(r.0)
    decreases |bytes|
  {
    if |bytes| == 0 then (c, [])
    else
      var s := Round(c, bytes);
      var t := ProcessUtf8(s.0, bytes[s.2..]);
      (t.0, s.1 + t.1)
  }

  /** An ASCII byte alone is valid UTF-8 standing for itself. */
  lemma AsciiIntoChar(b: u8)
    requires b <= 0x7F
    ensures Utf8.IntoChar([b]) == ByteChar(b)
  {
    Utf8Decode.AsciiDecodes([b]);
  }

  /**
   * A round agrees with a round of swiftty_vte's `process_utf8`: the
   * ASCII shortcut there only saves the trip through the buffer.
   */
  lemma RoundAgrees(c: PM.Pending, bytes: seq<u8>)
    requires PM.Bounded(c) && |bytes| > 0
    ensures Round(c, bytes) == PM.Utf8Step(c, bytes)
  {
    BackendUtf8.AgreesWithVte(bytes[0]);
    Utf8.ExpectedBytesCountRanges(bytes[0]);
    PM.StepByWant(c, bytes);
    if c.remaining == 0 && bytes[0] <= 0x7F {
      assert c.bytes + bytes[..1] == [bytes[0]];
      AsciiIntoChar(bytes[0]);
    }
  }

  /**
   * `process_utf8` prints what swiftty_vte's prints and leaves the same
   * bytes pending, so everything proved about that one (characters split
   * across chunks, U+FFFD for bytes that start no sequence) holds here.
   */
  lemma {:induction false} ProcessUtf8Agrees(c: PM.Pending, bytes: seq<u8>)
    requires PM.Bounded(c)
    ensures ProcessUtf8(c, bytes) == PM.ProcessUtf8(c, bytes)
    decreases |bytes|
  {
    if |bytes| > 0 {
      RoundAgrees(c, bytes);
      var s := Round(c, bytes);
      ProcessUtf8Agrees(s.0, bytes[s.2..]);
      PM.Unfold(c, bytes);
    }
  }

  /** The byte groups `process_utf8` hands to `consume_utf8`, in order. */
  function Groups(c: PM.Pending, bytes: seq<u8>): (g: seq<seq<u8>>)
    requires PM.Bounded(c)
    ensures forall i :: 0 <= i < |g| ==> 1 <= |g[i]| <= Utf8.MAX_LENGTH
    decreases |bytes|
  {
    if |bytes| == 0 then []
    else
      var s := Round(c, bytes);
      var gathered := c.bytes + bytes[..s.2];
      (if IsReady(PM.Pending(gathered, WantBytes(c, bytes[0]) - s.2)) then [gathered] else [])
        + Groups(s.0, bytes[s.2..])
  }

  /** One group, then the rest: the bytes laid end to end. */
  lemma ConcatCons(f: seq<u8>, fs: seq<seq<u8>>)
    ensures VteOsc.Concat([f] + fs) == f + VteOsc.Concat(fs)
  {
    VteOsc.ConcatAppend([f], fs);
    VteOsc.SingleConcat(f);
  }

  /** `calls` prints one character per group, in order: the character its bytes stand for. */
  predicate PrintsOf(calls: seq<E.Call>, groups: seq<seq<u8>>)
  {
    |calls| == |groups|
    && forall i :: 0 <= i < |groups| ==> |groups[i]| > 0 && calls[i] == E.Print(Utf8.IntoChar(groups[i]))
  }

  lemma PrintsOfAppend(a: seq<E.Call>, h: seq<seq<u8>>, b: seq<E.Call>, g: seq<seq<u8>>)
    requires PrintsOf(a, h) && PrintsOf(b, g)
    ensures PrintsOf(a + b, h + g)
  {
    forall i | 0 <= i < |h + g|
      ensures |(h + g)[i]| > 0 && (a + b)[i] == E.Print(Utf8.IntoChar((h + g)[i]))
    {
      if i >= |h| {
        assert (h + g)[i] == g[i - |h|] && (a + b)[i] == b[i - |h|];
      }
    }
  }

  /**
   * `process_utf8` copies every input byte into the buffer exactly once:
   * the groups it prints, then what it leaves pending, are the bytes it
   * was given after those already pending; and it prints one character
   * per group.
   */
  lemma {:induction false} CopiedOnce(c: PM.Pending, bytes: seq<u8>)
    requires PM.Bounded(c)
    ensures VteOsc.Concat(Groups(c, bytes)) + ProcessUtf8(c, bytes).0.bytes == c.bytes + bytes
    ensures PrintsOf(ProcessUtf8(c, bytes).1, Groups(c, bytes))
    decreases |bytes|
  {
    if |bytes| == 0 {
      assert c.bytes + bytes == c.bytes;
      assert VteOsc.Concat([]) == [];
    } else {
      var s := Round(c, bytes);
      var gathered := c.bytes + bytes[..s.2];
      var rest := bytes[s.2..];
      var g := Groups(s.0, rest);
      var t := ProcessUtf8(s.0, rest);
      CopiedOnce(s.0, rest);
      var ready := IsReady(PM.Pending(gathered, WantBytes(c, bytes[0]) - s.2));
      var head: seq<seq<u8>> := if ready then [gathered] else [];
      assert Groups(c, bytes) == head + g;
      assert ProcessUtf8(c, bytes) == (t.0, s.1 + t.1);
      assert s.1 == if ready then [E.Print(Utf8.IntoChar(gathered))] else [];
      assert s.0.bytes == if ready then [] else gathered;
      assert PrintsOf(s.1, head);
      PrintsOfAppend(s.1, head, t.1, g);
      var cg := VteOsc.Concat(g);
      ConcatCons(gathered, g);
      assert VteOsc.Concat(head + g) == if ready then gathered + cg else cg;
      VteProperties.SplitAt(bytes, s.2);
      JoinGroups(c.bytes, bytes[..s.2], rest, cg, t.0.bytes, ready);
    }
  }

  /** The byte bookkeeping of one round of `CopiedOnce`. */
  lemma JoinGroups(pending: seq<u8>, taken: seq<u8>, rest: seq<u8>, cg: seq<u8>, left: seq<u8>, ready: bool)
    requires cg + left == (if ready then [] else pending + taken) + rest
    ensures (if ready then (pending + taken) + cg else cg) + left == pending + (taken + rest)
  {
    if ready {
      assert (pending + taken) + cg + left == (pending + taken) + (cg + left);
    }
    assert (pending + taken) + rest == pending + (taken + rest);
  }

  // ---------------------------------------------------------------------
  // The processor as values.

  /**
   * The outer loop of `process` (lines 40-66) over the remaining bytes:
   * with no control left the text goes to `process_utf8` and the call
   * returns; otherwise the text up to the control goes to `process_utf8`,
   * a ready buffer is consumed (line 48), and the control and the bytes
   * after it go to the parser until it is back in the ground state.
   */
  function TextLoop(c: PM.Pending, p: SM.SState, remaining: seq<u8>): (r: Option<(PM.Pending, SM.SState, seq<E.Call>)>)
    requires PM.Bounded(c) && p.Valid()
    ensures r.Some? ==> PM.Bounded(r.value.0) && r.value.1.Valid()
    decreases |remaining|
  {
    if |remaining| == 0 then Some((c, p, []))
    else match C0.FirstIndexIn(remaining, BackendScan.C0_ARRAY)
      case None =>
        var t := ProcessUtf8(c, remaining);
        Some((t.0, p, t.1))
      case Some(k) =>
        var t := ProcessUtf8(c, remaining[..k]);
        var ready := ConsumeIfReady(t.0);
        var rest := remaining[k..];
        BackendScan.C0ArrayWithinC0Set(remaining);
        PM.C0IsKnown(p, rest[0]);
        var step := SM.Advance(p, rest[0]);
        match PM.InSequence(step.0, rest[1..])
        case None => None
        case Some((q2, k4, n)) => PM.Prefixed(t.1 + ready.1 + step.1 + k4, TextLoop(ready.0, q2, rest[1 + n..]))
  }

  /** `process`: finish the sequence in progress, then the outer loop. */
  function Process(c: PM.Pending, p: SM.SState, bytes: seq<u8>): (r: Option<(PM.Pending, SM.SState, seq<E.Call>)>)
    requires PM.Bounded(c) && p.Valid()
    ensures r.Some? ==> PM.Bounded(r.value.0) && r.value.1.Valid()
  {
    match PM.InSequence(p, bytes)
    case None => None
    case Some((q, k1, i)) => PM.Prefixed(k1, TextLoop(c, q, bytes[i..]))
  }

  /** The outer loop on text without a control: all of it goes to `process_utf8`. */
  lemma TextLoopText(c: PM.Pending, p: SM.SState, bytes: seq<u8>)
    requires PM.Bounded(c) && p.Valid() && |bytes| > 0 && C0.FirstIndexIn(bytes, BackendScan.C0_ARRAY).None?
    ensures TextLoop(c, p, bytes) == Some((ProcessUtf8(c, bytes).0, p, ProcessUtf8(c, bytes).1))
  {
  }

  /** A control of `C0_ARRAY` has a table entry in every state. */
  lemma ControlIsKnown(p: SM.SState, b: u8)
    requires p.Valid() && b in BackendScan.C0_ARRAY
    ensures SM.Known(p.state, b)
  {
    BackendScan.C0ArrayWithinC0Set([]);
    PM.C0IsKnown(p, b);
  }

  /**
   * The outer loop at a control at index `k`: the text before it, the
   * test of line 48, the control, then `process` from the parser it leads
   * to and with the buffer the text left.
   */
  lemma TextLoopAtControl(c: PM.Pending, p: SM.SState, bytes: seq<u8>, k: nat)
    requires PM.Bounded(c) && p.Valid() && C0.FirstIndexIn(bytes, BackendScan.C0_ARRAY) == Some(k)
    ensures SM.Known(p.state, bytes[k])
    ensures var t := ProcessUtf8(c, bytes[..k]); var ready := ConsumeIfReady(t.0);
      TextLoop(c, p, bytes) == PM.Prefixed(t.1 + ready.1 + SM.Advance(p, bytes[k]).1, Process(ready.0, SM.Advance(p, bytes[k]).0, bytes[k + 1..]))
  {
    var rest := bytes[k..];
    assert rest[0] == bytes[k] && rest[1..] == bytes[k + 1..];
    ControlIsKnown(p, rest[0]);
    var t := ProcessUtf8(c, bytes[..k]);
    var ready := ConsumeIfReady(t.0);
    assert ready.0 == t.0;
    var q := SM.Advance(p, rest[0]).0;
    var k3 := SM.Advance(p, rest[0]).1;
    var run := PM.InSequence(q, rest[1..]);
    if run.Some? {
      var n := run.value.2;
      assert n <= |rest| - 1;
      assert rest[1 + n..] == rest[1..][n..];
      var after := TextLoop(ready.0, run.value.0, rest[1..][n..]);
      assert Process(ready.0, q, rest[1..]) == PM.Prefixed(run.value.1, after);
      assert TextLoop(c, p, bytes) == PM.Prefixed(t.1 + ready.1 + k3 + run.value.1, after);
      PM.PrefixedTwice(t.1 + ready.1 + k3, run.value.1, after);
    } else {
      assert Process(ready.0, q, rest[1..]).None?;
      assert TextLoop(c, p, bytes).None?;
    }
  }

  /**
   * The invariant of the outer loop of `process` carried over one round
   * that stops at the control at index `k`: the calls of the round are
   * appended, and the loop goes on after the bytes the parser took.
   */
  lemma OuterRound(c: PM.Pending, p: SM.SState, bytes: seq<u8>, k: nat, text: seq<E.Call>, c1: PM.Pending,
                   k3: seq<E.Call>, q2: SM.SState, k4: seq<E.Call>, n: nat)
    requires PM.Bounded(c) && p.Valid() && C0.FirstIndexIn(bytes, BackendScan.C0_ARRAY) == Some(k) && SM.Known(p.state, bytes[k])
    requires var t := ProcessUtf8(c, bytes[..k]); c1 == ConsumeIfReady(t.0).0 && text == t.1 + ConsumeIfReady(t.0).1
    requires k3 == SM.Advance(p, bytes[k]).1
    requires PM.InSequence(SM.Advance(p, bytes[k]).0, bytes[k + 1..]) == Some((q2, k4, n))
    ensures PM.Bounded(c1)
    ensures TextLoop(c, p, bytes) == PM.Prefixed(text + k3 + k4, TextLoop(c1, q2, bytes[k + 1 + n..]))
  {
    TextLoopAtControl(c, p, bytes, k);
    PM.DropTwice(bytes, k + 1, n);
    PM.PrefixedTwice(text + k3, k4, TextLoop(c1, q2, bytes[k + 1 + n..]));
  }

  /** A round whose sequence reaches a byte without a table entry panics. */
  lemma OuterRoundPanics(c: PM.Pending, p: SM.SState, bytes: seq<u8>, k: nat)
    requires PM.Bounded(c) && p.Valid() && C0.FirstIndexIn(bytes, BackendScan.C0_ARRAY) == Some(k) && SM.Known(p.state, bytes[k])
    requires PM.InSequence(SM.Advance(p, bytes[k]).0, bytes[k + 1..]).None?
    ensures TextLoop(c, p, bytes).None?
  {
    TextLoopAtControl(c, p, bytes, k);
  }

  // ---------------------------------------------------------------------
  // The unfinished character before a control.

  /**
   * The last chunk of test `process_mixed`, from an empty buffer and a
   * parser in the ground state: the first two bytes of '漢' stay in the
   * buffer and nothing is printed, where the test expects U+FFFD.
   */
  lemma AbortedSequenceKept(p: SM.SState)
    requires p.Valid() && p.state == Ground
    ensures Process(PM.EMPTY, p, [0xE6, 0xBC, C0.ESC]) == Some((PM.Pending([0xE6, 0xBC], 1), SM.Advance(p, C0.ESC).0, []))
  {
    var bytes: seq<u8> := [0xE6, 0xBC, C0.ESC];
    AbortedText(bytes);
    SM.EscFromGround(p);
    SM.SingleFeed(p, C0.ESC);
    var q := SM.Advance(p, C0.ESC).0;
    var pending := PM.Pending([0xE6, 0xBC], 1);
    assert Process(pending, q, []) == Some((pending, q, []));
    TextLoopAtControl(PM.EMPTY, p, bytes, 2);
    assert TextLoop(PM.EMPTY, p, bytes) == Some((pending, q, []));
    assert bytes[0..] == bytes;
  }

  /** The text of that chunk: '漢' without its last byte, cut off by ESC. */
  lemma AbortedText(bytes: seq<u8>)
    requires bytes == [0xE6, 0xBC, C0.ESC]
    ensures C0.FirstIndexIn(bytes, BackendScan.C0_ARRAY) == Some(2)
    ensures bytes[..2] == [0xE6, 0xBC] && bytes[2] == C0.ESC && bytes[3..] == []
    ensures ProcessUtf8(PM.EMPTY, [0xE6, 0xBC]) == (PM.Pending([0xE6, 0xBC], 1), [])
  {
    BackendScan.C0ArrayCharacterization(0xE6);
    BackendScan.C0ArrayCharacterization(0xBC);
    BackendScan.C0ArrayCharacterization(C0.ESC);
    C0.FirstIndexInUnique(bytes, BackendScan.C0_ARRAY, 2);
    PM.HanPrefix();
    ProcessUtf8Agrees(PM.EMPTY, [0xE6, 0xBC]);
  }

  /**
   * Where a chunk has no control outside `C0_ARRAY`, the outer loop with
   * the test after the text replaced by swiftty_vte's flush: a sequence
   * the text leaves unfinished prints U+FFFD and is dropped.
   */
  function CorrectedTextLoop(c: PM.Pending, p: SM.SState, remaining: seq<u8>): (r: Option<(PM.Pending, SM.SState, seq<E.Call>)>)
    requires PM.Bounded(c) && p.Valid()
    ensures r.Some? ==> PM.Bounded(r.value.0) && r.value.1.Valid()
    decreases |remaining|
  {
    if |remaining| == 0 then Some((c, p, []))
    else match C0.FirstIndexIn(remaining, BackendScan.C0_ARRAY)
      case None =>
        var t := ProcessUtf8(c, remaining);
        Some((t.0, p, t.1))
      case Some(k) =>
        var t := ProcessUtf8(c, remaining[..k]);
        var flushed := PM.Flushed(t.0);
        var rest := remaining[k..];
        BackendScan.C0ArrayWithinC0Set(remaining);
        PM.C0IsKnown(p, rest[0]);
        var step := SM.Advance(p, rest[0]);
        match PM.InSequence(step.0, rest[1..])
        case None => None
        case Some((q2, k4, n)) => PM.Prefixed(t.1 + flushed.1 + step.1 + k4, CorrectedTextLoop(flushed.0, q2, rest[1 + n..]))
  }

  /** `process` with the corrected outer loop. */
  function CorrectedProcess(c: PM.Pending, p: SM.SState, bytes: seq<u8>): (r: Option<(PM.Pending, SM.SState, seq<E.Call>)>)
    requires PM.Bounded(c) && p.Valid()
    ensures r.Some? ==> PM.Bounded(r.value.0) && r.value.1.Valid()
  {
    match PM.InSequence(p, bytes)
    case None => None
    case Some((q, k1, i)) => PM.Prefixed(k1, CorrectedTextLoop(c, q, bytes[i..]))
  }

  /** Every byte of `s` in the parser's C0 set is one of the controls of `C0_ARRAY`. */
  predicate ControlsInArray(s: seq<u8>)
  {
    forall i :: 0 <= i < |s| ==> C0.InC0Set(s[i]) ==> s[i] in BackendScan.C0_ARRAY
  }

  lemma ControlsInArraySuffix(s: seq<u8>, j: nat)
    requires ControlsInArray(s) && j <= |s|
    ensures ControlsInArray(s[j..])
  {
    forall i | 0 <= i < |s| - j
      ensures C0.InC0Set(s[j..][i]) ==> s[j..][i] in BackendScan.C0_ARRAY
    {
      assert s[j..][i] == s[j + i];
    }
  }

  /** On such bytes the processor's scan stops where the parser's would. */
  lemma ScansAgree(s: seq<u8>)
    requires ControlsInArray(s)
    ensures C0.FirstIndexIn(s, BackendScan.C0_ARRAY) == C0.FirstIndexOfC0(s)
  {
    BackendScan.C0ArrayWithinC0Set(s);
    var b := C0.FirstIndexOfC0(s);
    if b.Some? {
      C0.FirstIndexInUnique(s, BackendScan.C0_ARRAY, b.value);
    }
  }

  /** The corrected outer loop at a control at index `k`: the text, its flush, the control, then `process`. */
  lemma CorrectedAtControl(c: PM.Pending, p: SM.SState, bytes: seq<u8>, k: nat)
    requires PM.Bounded(c) && p.Valid() && C0.FirstIndexIn(bytes, BackendScan.C0_ARRAY) == Some(k)
    ensures SM.Known(p.state, bytes[k])
    ensures var t := ProcessUtf8(c, bytes[..k]);
      CorrectedTextLoop(c, p, bytes)
        == PM.Prefixed(t.1 + PM.Flushed(t.0).1 + SM.Advance(p, bytes[k]).1, CorrectedProcess(PM.EMPTY, SM.Advance(p, bytes[k]).0, bytes[k + 1..]))
  {
    var rest := bytes[k..];
    assert rest[0] == bytes[k] && rest[1..] == bytes[k + 1..];
    ControlIsKnown(p, rest[0]);
    var t := ProcessUtf8(c, bytes[..k]);
    var f := PM.Flushed(t.0);
    assert f.0 == PM.EMPTY;
    var q := SM.Advance(p, rest[0]).0;
    var k3 := SM.Advance(p, rest[0]).1;
    var run := PM.InSequence(q, rest[1..]);
    if run.Some? {
      var n := run.value.2;
      assert n <= |rest| - 1;
      assert rest[1 + n..] == rest[1..][n..];
      var after := CorrectedTextLoop(PM.EMPTY, run.value.0, rest[1..][n..]);
      assert CorrectedProcess(PM.EMPTY, q, rest[1..]) == PM.Prefixed(run.value.1, after);
      assert CorrectedTextLoop(c, p, bytes) == PM.Prefixed(t.1 + f.1 + k3 + run.value.1, after);
      PM.PrefixedTwice(t.1 + f.1 + k3, run.value.1, after);
    } else {
      assert CorrectedProcess(PM.EMPTY, q, rest[1..]).None?;
      assert CorrectedTextLoop(c, p, bytes).None?;
    }
  }

  /**
   * On bytes whose controls are all in `C0_ARRAY`, the corrected outer
   * loop is swiftty_vte's.
   */
  lemma {:induction false} CorrectedLoopAgrees(c: PM.Pending, p: SM.SState, remaining: seq<u8>)
    requires PM.Bounded(c) && p.Valid() && ControlsInArray(remaining)
    ensures CorrectedTextLoop(c, p, remaining) == PM.TextLoop(c, p, remaining)
    decreases |remaining|, 0
  {
    if |remaining| > 0 {
      ScansAgree(remaining);
      match C0.FirstIndexIn(remaining, BackendScan.C0_ARRAY)
      case None =>
        ProcessUtf8Agrees(c, remaining);
      case Some(k) =>
        ProcessUtf8Agrees(c, remaining[..k]);
        CorrectedAtControl(c, p, remaining, k);
        PM.TextLoopAtC0(c, p, remaining, k);
        ControlsInArraySuffix(remaining, k + 1);
        CorrectedAgrees(PM.EMPTY, SM.Advance(p, remaining[k]).0, remaining[k + 1..]);
    }
  }

  /** The corrected `process` is swiftty_vte's on such bytes. */
  lemma {:induction false} CorrectedAgrees(c: PM.Pending, p: SM.SState, bytes: seq<u8>)
    requires PM.Bounded(c) && p.Valid() && ControlsInArray(bytes)
    ensures CorrectedProcess(c, p, bytes) == PM.Process(c, p, bytes)
    decreases |bytes|, 1
  {
    match PM.InSequence(p, bytes)
    case None =>
    case Some((q, k1, i)) =>
      ControlsInArraySuffix(bytes, i);
      CorrectedLoopAgrees(c, q, bytes[i..]);
  }

  /** A chunk whose bytes are printable, from 0x80 up, or controls of `C0_ARRAY`. */
  lemma ControlsOf(s: seq<u8>)
    requires forall i :: 0 <= i < |s| ==> 0x20 <= s[i] < 0x7F || 0x80 <= s[i] || s[i] in BackendScan.C0_ARRAY
    ensures ControlsInArray(s)
  {
    forall i | 0 <= i < |s|
      ensures C0.InC0Set(s[i]) ==> s[i] in BackendScan.C0_ARRAY
    {
      C0.AllCharacterization(s[i]);
    }
  }

  /** Test `process_mixed` as its expected list says, with the corrected outer loop. */
  lemma CorrectedMixed()
    ensures var r1 := CorrectedProcess(PM.EMPTY, SM.INITIAL, PM.HELLO + [C0.BEL] + PM.SGR);
      r1.Some? && var r2 := CorrectedProcess(r1.value.0, r1.value.1, [0xD0]);
      r2.Some? && var r3 := CorrectedProcess(r2.value.0, r2.value.1, [0x96]);
      r3.Some? && var r4 := CorrectedProcess(r3.value.0, r3.value.1, [0xE6, 0xBC, 0xA2]);
      r4.Some? && var r5 := CorrectedProcess(r4.value.0, r4.value.1, [0xE6, 0xBC, C0.ESC]);
      r5.Some? && r1.value.2 + r2.value.2 + r3.value.2 + r4.value.2 + r5.value.2 == PM.MIXED_CALLS
  {
    PM.ProcessMixed();
    SM.InitialValid();
    MixedControls();
    var r1 := PM.Process(PM.EMPTY, SM.INITIAL, PM.HELLO + [C0.BEL] + PM.SGR);
    CorrectedAgrees(PM.EMPTY, SM.INITIAL, PM.HELLO + [C0.BEL] + PM.SGR);
    var r2 := PM.Process(r1.value.0, r1.value.1, [0xD0]);
    CorrectedAgrees(r1.value.0, r1.value.1, [0xD0]);
    var r3 := PM.Process(r2.value.0, r2.value.1, [0x96]);
    CorrectedAgrees(r2.value.0, r2.value.1, [0x96]);
    var r4 := PM.Process(r3.value.0, r3.value.1, [0xE6, 0xBC, 0xA2]);
    CorrectedAgrees(r3.value.0, r3.value.1, [0xE6, 0xBC, 0xA2]);
    CorrectedAgrees(r4.value.0, r4.value.1, [0xE6, 0xBC, C0.ESC]);
  }

  /** The chunks of `process_mixed` have no control outside `C0_ARRAY`. */
  lemma MixedControls()
    ensures ControlsInArray(PM.HELLO + [C0.BEL] + PM.SGR)
    ensures ControlsInArray([0xD0]) && ControlsInArray([0x96])
    ensures ControlsInArray([0xE6, 0xBC, 0xA2]) && ControlsInArray([0xE6, 0xBC, C0.ESC])
  {
    BackendScan.C0ArrayCharacterization(C0.BEL);
    BackendScan.C0ArrayCharacterization(C0.ESC);
    var first := PM.HELLO + [C0.BEL] + PM.SGR;
    assert PM.SGR == [C0.ESC, 0x5B, 0x33, 0x38, 0x3A, 0x32, 0x3A, 0x32, 0x35, 0x35, 0x3A, 0x30, 0x3A, 0x32, 0x35, 0x35, 0x3B, 0x31, 0x6D];
    ControlsOf(first);
    ControlsOf([0xD0]);
    ControlsOf([0x96]);
    ControlsOf([0xE6, 0xBC, 0xA2]);
    ControlsOf([0xE6, 0xBC, C0.ESC]);
  }
}
