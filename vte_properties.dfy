/**
 * Laws of the saiga_vte parser model: feeding bytes one at a time
 * composes, the byte loops of `advance` are such feeding, and on 7-bit
 * input without NAK the fast text path of `advance` behaves exactly like
 * feeding every byte to the table, so such input may be split into chunks
 * anywhere. With NAK added to the C0 set, the corrected `advance` does so
 * on all 7-bit input.
 */
module VteProperties {
  import opened Common
  import opened Table
  import opened Utf8Decode
  import opened VteParams
  import opened VteModel
  import C0
  import E = Executor

  /** Feeding two slices one after the other is feeding their concatenation. */
  lemma {:induction false} FeedAppend(p: PState, a: seq<u8>, b: seq<u8>)
    requires p.Valid()
    ensures Feed(p, a + b).0 == Feed(Feed(p, a).0, b).0
    ensures Feed(p, a + b).1 == Feed(p, a).1 + Feed(Feed(p, a).0, b).1
    decreases |a|
  {
    if |a| == 0 {
      assert a + b == b;
    } else {
      var step := AdvanceSequence(p, a[0]);
      assert (a + b)[0] == a[0];
      assert (a + b)[1..] == a[1..] + b;
      FeedAppend(step.0, a[1..], b);
      var q := Feed(step.0, a[1..]).0;
      E.CallsAssociative(step.1, Feed(step.0, a[1..]).1, Feed(q, b).1);
    }
  }

  /** Feeding one byte is one `advance_sequence`. */
  lemma FeedOne(p: PState, b: u8)
    requires p.Valid()
    ensures Feed(p, [b]) == AdvanceSequence(p, b)
  {
    var step := AdvanceSequence(p, b);
    assert [b][1..] == [];
    assert step.1 + [] == step.1;
  }

  /**
   * A byte without an entry in the Anywhere row or the current row leaves
   * the whole parser state as it was and makes no call; outside an OSC
   * string this is every byte from 0xA0 on.
   */
  lemma UnmappedByteChangesNothing(p: PState, b: u8)
    requires p.Valid() && b >= 0xA0 && p.state != OscString
    ensures Transition(p.state, b).None?
    ensures AdvanceSequence(p, b) == (p, [])
  {
    TransitionDefinedIff(p.state, b);
  }

  /** The byte loops of `advance` feed the bytes they pass over to the table, in order. */
  lemma {:induction false} FeedWhileIsFeed(p: PState, bytes: seq<u8>, i: nat)
    requires p.Valid() && i <= |bytes|
    ensures FeedWhileInSequence(p, bytes, i).0 == Feed(p, bytes[i..FeedWhileInSequence(p, bytes, i).2]).0
    ensures FeedWhileInSequence(p, bytes, i).1 == Feed(p, bytes[i..FeedWhileInSequence(p, bytes, i).2]).1
    decreases |bytes| - i
  {
    var r := FeedWhileInSequence(p, bytes, i);
    if p.state != Ground && i < |bytes| {
      var step := AdvanceSequence(p, bytes[i]);
      FeedWhileIsFeed(step.0, bytes, i + 1);
      assert bytes[i..r.2][0] == bytes[i];
      assert bytes[i..r.2][1..] == bytes[i + 1..r.2];
    } else {
      assert bytes[i..r.2] == [];
    }
  }

  /** 7-bit input without NAK (0x15), the one C0 control outside the C0 set. */
  predicate SevenBitWithoutNak(s: seq<u8>)
  {
    forall i :: 0 <= i < |s| ==> s[i] < 0x80 && s[i] != C0.NAK
  }

  /** The characters a run of bytes stands for one by one. */
  function Latin(s: seq<u8>): (cs: seq<char>)
    ensures |cs| == |s| && forall i :: 0 <= i < |s| ==> cs[i] == ByteChar(s[i])
  {
    seq(|s|, i requires 0 <= i < |s| => ByteChar(s[i]))
  }

  /** In the ground state a printable 7-bit byte is printed and nothing else changes. */
  lemma GroundPrintsByte(p: PState, b: u8)
    requires p.Valid() && p.state == Ground && 0x20 <= b <= 0x7E
    ensures AdvanceSequence(p, b) == (p, [E.Print(ByteChar(b))])
  {
    GroundRow(b);
  }

  /** In the ground state every printable 7-bit byte is printed and nothing else changes. */
  lemma {:induction false} GroundPrintsText(p: PState, s: seq<u8>)
    requires p.Valid() && p.state == Ground
    requires forall i :: 0 <= i < |s| ==> 0x20 <= s[i] <= 0x7E
    ensures Feed(p, s).0 == p && Feed(p, s).1 == E.Prints(Latin(s))
    decreases |s|
  {
    if |s| > 0 {
      GroundPrintsByte(p, s[0]);
      GroundPrintsText(p, s[1..]);
      assert Latin(s)[1..] == Latin(s[1..]);
    }
  }

  /** `advance_utf8` on printable 7-bit text prints each byte as its character. */
  lemma PrintTextOfAscii(s: seq<u8>)
    requires forall i :: 0 <= i < |s| ==> s[i] < 0x80
    ensures PrintText(s) == E.Prints(Latin(s))
  {
    AsciiDecodes(s);
  }

  /** A run without bytes of the C0 set, taken from 7-bit input without NAK, is printable. */
  lemma RunIsPrintable(s: seq<u8>)
    requires SevenBitWithoutNak(s)
    requires forall j :: 0 <= j < |s| ==> !C0.InC0Set(s[j])
    ensures forall i :: 0 <= i < |s| ==> 0x20 <= s[i] <= 0x7E
  {
    forall i | 0 <= i < |s|
      ensures 0x20 <= s[i] <= 0x7E
    {
      C0.AllCharacterization(s[i]);
    }
  }

  /** The text loop of `advance` on 7-bit input without NAK is feeding it byte by byte. */
  lemma {:induction false} TextLoopIsFeed(p: PState, remaining: seq<u8>)
    requires p.Valid() && (p.state == Ground || |remaining| == 0)
    requires SevenBitWithoutNak(remaining)
    ensures TextLoop(p, remaining) == Feed(p, remaining)
    decreases |remaining|
  {
    if |remaining| == 0 {
      return;
    }
    match C0.FirstIndexOfC0(remaining)
    case None =>
      RunIsPrintable(remaining);
      GroundPrintsText(p, remaining);
      PrintTextOfAscii(remaining);
    case Some(k) =>
      var rest := remaining[k..];
      var s1 := AdvanceSequence(p, rest[0]);
      var r2 := FeedWhileInSequence(s1.0, rest, 1);
      var tail := rest[r2.2..];
      assert SevenBitWithoutNak(tail) by {
        forall i | 0 <= i < |tail|
          ensures tail[i] < 0x80 && tail[i] != C0.NAK
        {
          assert tail[i] == remaining[k + r2.2 + i];
        }
      }
      TextLoopIsFeed(r2.0, tail);
      TextRoundIsFeed(p, remaining, k);
  }

  /** One round of the text loop, given that the rest of the loop is feeding. */
  lemma TextRoundIsFeed(p: PState, remaining: seq<u8>, k: nat)
    requires p.Valid() && p.state == Ground && SevenBitWithoutNak(remaining)
    requires |remaining| > 0 && C0.FirstIndexOfC0(remaining) == Some(k)
    requires var rest := remaining[k..];
      var s1 := AdvanceSequence(p, rest[0]);
      var r2 := FeedWhileInSequence(s1.0, rest, 1);
      TextLoop(r2.0, rest[r2.2..]) == Feed(r2.0, rest[r2.2..])
    ensures TextLoop(p, remaining).0 == Feed(p, remaining).0
    ensures TextLoop(p, remaining).1 == Feed(p, remaining).1
  {
    var rest := remaining[k..];
    var s1 := AdvanceSequence(p, rest[0]);
    assert rest[0] == remaining[k];
    var r2 := FeedWhileInSequence(s1.0, rest, 1);
    TextLoopUnfold(p, remaining, k, s1, r2);
    RoundIsFeed(p, remaining, k, s1, r2);
  }

  /** Feeding one round's bytes: the text's characters, then the sequence's calls, then the rest. */
  lemma RoundIsFeed(p: PState, remaining: seq<u8>, k: nat, s1: (PState, seq<E.Call>), r2: (PState, seq<E.Call>, nat))
    requires p.Valid() && p.state == Ground && SevenBitWithoutNak(remaining)
    requires |remaining| > 0 && C0.FirstIndexOfC0(remaining) == Some(k)
    requires s1 == AdvanceSequence(p, remaining[k])
    requires r2 == FeedWhileInSequence(s1.0, remaining[k..], 1)
    ensures Feed(p, remaining).0 == Feed(r2.0, remaining[k..][r2.2..]).0
    ensures Feed(p, remaining).1 == PrintText(remaining[..k]) + s1.1 + r2.1 + Feed(r2.0, remaining[k..][r2.2..]).1
  {
    var text := remaining[..k];
    var rest := remaining[k..];
    SplitAt(remaining, k);
    TextIsFeed(p, remaining, k);
    assert rest[0] == remaining[k];
    var j := r2.2;
    TextStepIsFeed(p, text, rest, s1, r2);
    var tail := rest[j..];
    var r3 := Feed(r2.0, tail);
    SplitAt(rest, j);
    FeedAppend(p, text, rest);
    FeedAppend(p, rest[..j], tail);
    var printed := PrintText(text);
    assert Feed(p, rest).1 == (s1.1 + r2.1) + r3.1;
    assert Feed(p, remaining).1 == printed + ((s1.1 + r2.1) + r3.1);
    E.CallsAssociative(printed, s1.1, r2.1);
    E.CallsAssociative(printed, s1.1 + r2.1, r3.1);
  }

  /** The text before the first C0 byte is printed by the table too, and leaves the ground state alone. */
  lemma TextIsFeed(p: PState, remaining: seq<u8>, k: nat)
    requires p.Valid() && p.state == Ground && SevenBitWithoutNak(remaining)
    requires |remaining| > 0 && C0.FirstIndexOfC0(remaining) == Some(k)
    ensures Feed(p, remaining[..k]) == (p, PrintText(remaining[..k]))
  {
    var text := remaining[..k];
    RunIsPrintable(text);
    GroundPrintsText(p, text);
    PrintTextOfAscii(text);
  }

  /** A slice is its prefix followed by its suffix. */
  lemma SplitAt(s: seq<u8>, k: nat)
    requires k <= |s|
    ensures s == s[..k] + s[k..]
  {
  }

  lemma TextLoopUnfold(p: PState, remaining: seq<u8>, k: nat, s1: (PState, seq<E.Call>), r2: (PState, seq<E.Call>, nat))
    requires p.Valid() && |remaining| > 0 && C0.FirstIndexOfC0(remaining) == Some(k)
    requires s1 == AdvanceSequence(p, remaining[k])
    requires r2 == FeedWhileInSequence(s1.0, remaining[k..], 1)
    ensures TextLoop(p, remaining).0 == TextLoop(r2.0, remaining[k..][r2.2..]).0
    ensures TextLoop(p, remaining).1 == PrintText(remaining[..k]) + s1.1 + r2.1 + TextLoop(r2.0, remaining[k..][r2.2..]).1
  {
    assert remaining[k..][0] == remaining[k];
  }

  lemma TextStepIsFeed(p: PState, text: seq<u8>, rest: seq<u8>, s1: (PState, seq<E.Call>), r2: (PState, seq<E.Call>, nat))
    requires p.Valid() && p.state == Ground && |rest| > 0
    requires s1 == AdvanceSequence(p, rest[0])
    requires r2 == FeedWhileInSequence(s1.0, rest, 1)
    ensures r2.2 < |rest| ==> r2.0.state == Ground
    ensures Feed(p, rest[..r2.2]).0 == r2.0 && Feed(p, rest[..r2.2]).1 == s1.1 + r2.1
  {
    FeedWhileIsFeed(s1.0, rest, 1);
    var j := r2.2;
    assert rest[..j][0] == rest[0];
    assert rest[..j][1..] == rest[1..j];
  }
  /**
   * On 7-bit input without NAK, `advance` does exactly what feeding every
   * byte to the table does: the fast text path only groups printable runs.
   */
  lemma AdvanceIsFeed(p: PState, bytes: seq<u8>)
    requires p.Valid() && SevenBitWithoutNak(bytes)
    ensures Advance(p, bytes).0 == Feed(p, bytes).0
    ensures Advance(p, bytes).1 == Feed(p, bytes).1
  {
    var r1 := FeedWhileInSequence(p, bytes, 0);
    var i := r1.2;
    var rest := bytes[i..];
    FeedWhileIsPrefixFeed(p, bytes);
    SevenBitSuffix(bytes, i);
    TextLoopIsFeed(r1.0, rest);
    SplitAt(bytes, i);
    FeedAppend(p, bytes[..i], rest);
  }

  /** The sequence loop that starts `advance` feeds a prefix of the input. */
  lemma FeedWhileIsPrefixFeed(p: PState, bytes: seq<u8>)
    requires p.Valid()
    ensures FeedWhileInSequence(p, bytes, 0).0 == Feed(p, bytes[..FeedWhileInSequence(p, bytes, 0).2]).0
    ensures FeedWhileInSequence(p, bytes, 0).1 == Feed(p, bytes[..FeedWhileInSequence(p, bytes, 0).2]).1
  {
    FeedWhileIsFeed(p, bytes, 0);
    assert bytes[0..FeedWhileInSequence(p, bytes, 0).2] == bytes[..FeedWhileInSequence(p, bytes, 0).2];
  }

  /** A suffix of 7-bit input without NAK is 7-bit input without NAK. */
  lemma SevenBitSuffix(bytes: seq<u8>, i: nat)
    requires SevenBitWithoutNak(bytes) && i <= |bytes|
    ensures SevenBitWithoutNak(bytes[i..])
  {
    var rest := bytes[i..];
    forall j | 0 <= j < |rest|
      ensures rest[j] < 0x80 && rest[j] != C0.NAK
    {
      assert rest[j] == bytes[i + j];
    }
  }

  /**
   * Splitting 7-bit input without NAK into two `advance` calls makes the
   * same calls and reaches the same state as one call on the whole input.
   */
  lemma AdvanceInChunks(p: PState, a: seq<u8>, b: seq<u8>)
    requires p.Valid() && SevenBitWithoutNak(a) && SevenBitWithoutNak(b)
    ensures Advance(p, a + b).0 == Advance(Advance(p, a).0, b).0
    ensures Advance(p, a + b).1 == Advance(p, a).1 + Advance(Advance(p, a).0, b).1
  {
    assert SevenBitWithoutNak(a + b) by {
      forall j | 0 <= j < |a + b|
        ensures (a + b)[j] < 0x80 && (a + b)[j] != C0.NAK
      {
        if j < |a| {
          assert (a + b)[j] == a[j];
        } else {
          assert (a + b)[j] == b[j - |a|];
        }
      }
    }
    AdvanceIsFeed(p, a + b);
    AdvanceIsFeed(p, a);
    var q := Advance(p, a).0;
    AdvanceIsFeed(q, b);
    FeedAppend(p, a, b);
  }


  /**
   * A sequence that starts at a C0 byte in the ground state and stays
   * inside the escape machinery until its last byte is fed to the table
   * byte by byte, whatever bytes it holds (C1 and 8-bit bytes included).
   */
  lemma AdvanceOneSequence(p: PState, bytes: seq<u8>)
    requires p.Valid() && p.state == Ground && |bytes| > 0 && C0.InC0Set(bytes[0])
    requires forall k :: 1 <= k < |bytes| ==> Feed(p, bytes[..k]).0.state != Ground
    ensures Advance(p, bytes).0 == Feed(p, bytes).0
    ensures Advance(p, bytes).1 == Feed(p, bytes).1
  {
    AdvanceFromGround(p, bytes);
    SequenceRunsToEnd(p, bytes);
  }

  /** From the ground state `advance` starts with the text loop. */
  lemma AdvanceFromGround(p: PState, bytes: seq<u8>)
    requires p.Valid() && p.state == Ground
    ensures Advance(p, bytes) == TextLoop(p, bytes)
  {
    var t := TextLoop(p, bytes);
    FeedWhileStops(p, bytes, 0);
    assert bytes[0..] == bytes;
    AppendEmpty(t.1);
  }

  lemma EmptyText(q: PState)
    requires q.Valid()
    ensures TextLoop(q, []) == (q, []) && PrintText([]) == []
  {
    assert FromUtf8([]) == Ok([]);
  }

  /** The table loop of `advance` runs to the end of a sequence that does not return to ground early. */
  lemma SequenceRunsToEnd(p: PState, bytes: seq<u8>)
    requires p.Valid() && p.state == Ground && |bytes| > 0 && C0.InC0Set(bytes[0])
    requires forall k :: 1 <= k < |bytes| ==> Feed(p, bytes[..k]).0.state != Ground
    ensures TextLoop(p, bytes).0 == Feed(p, bytes).0
    ensures TextLoop(p, bytes).1 == Feed(p, bytes).1
  {
    var s1 := AdvanceSequence(p, bytes[0]);
    var r2 := FeedWhileInSequence(s1.0, bytes, 1);
    RunReachesEnd(p, bytes, s1, r2);
    FirstIndexAtStart(bytes);
    FirstSequenceOnly(p, bytes, s1, r2);
  }

  lemma RunReachesEnd(p: PState, bytes: seq<u8>, s1: (PState, seq<E.Call>), r2: (PState, seq<E.Call>, nat))
    requires p.Valid() && p.state == Ground && |bytes| > 0
    requires forall k :: 1 <= k < |bytes| ==> Feed(p, bytes[..k]).0.state != Ground
    requires s1 == AdvanceSequence(p, bytes[0]) && r2 == FeedWhileInSequence(s1.0, bytes, 1)
    ensures r2.2 == |bytes| && Feed(p, bytes).0 == r2.0 && Feed(p, bytes).1 == s1.1 + r2.1
  {
    TextStepIsFeed(p, [], bytes, s1, r2);
    assert r2.2 == |bytes|;
    assert bytes[..r2.2] == bytes;
  }

  lemma FirstIndexAtStart(bytes: seq<u8>)
    requires |bytes| > 0 && C0.InC0Set(bytes[0])
    ensures C0.FirstIndexOfC0(bytes) == Some(0)
  {
  }

  lemma FirstSequenceOnly(p: PState, bytes: seq<u8>, s1: (PState, seq<E.Call>), r2: (PState, seq<E.Call>, nat))
    requires p.Valid() && p.state == Ground && |bytes| > 0 && C0.FirstIndexOfC0(bytes) == Some(0)
    requires s1 == AdvanceSequence(p, bytes[0]) && r2 == FeedWhileInSequence(s1.0, bytes, 1)
    requires r2.2 == |bytes|
    ensures TextLoop(p, bytes).0 == r2.0 && TextLoop(p, bytes).1 == s1.1 + r2.1
  {
    TextLoopUnfold(p, bytes, 0, s1, r2);
    var tail := bytes[0..][r2.2..];
    assert tail == [];
    EmptyText(r2.0);
    var text := bytes[..0];
    assert text == [];
    E.EmptyEnds(PrintText(text), s1.1, r2.1, TextLoop(r2.0, tail).1);
  }

  /** The `Clear` action: parameters, sub-parameter, `ignore` flag and intermediates reset. */
  function Cleared(q: PState): (r: PState)
    ensures r.state == q.state && r.osc == q.osc
    ensures r.params == EMPTY_PARAMS && r.subparam == 0 && !r.ignoring && r.intermediates == []
  {
    q.(params := EMPTY_PARAMS, subparam := 0, ignoring := false, intermediates := [])
  }

  /**
   * ESC interrupts whatever sequence is in progress: outside an OSC string
   * and a DCS passthrough it calls nothing and leaves the parser in Escape
   * with the accumulators cleared.
   */
  lemma EscapeCancels(q: PState)
    requires q.Valid() && q.state != OscString && q.state != DcsPassthrough
    ensures AdvanceSequence(q, C0.ESC) == (Cleared(q).(state := Escape), [])
  {
    EscapeCancelSubFromAnywhere(q.state);
    var r := Cleared(q).(state := Escape);
    assert ExitAction(q, C0.ESC) == (q, []);
    assert EntryAction(q.(state := Escape), C0.ESC) == (r, []);
    assert StateChange(q, Escape, None, C0.ESC).0 == r;
    assert StateChange(q, Escape, None, C0.ESC).1 == [];
    assert AdvanceSequence(q, C0.ESC) == StateChange(q, Escape, None, C0.ESC);
  }

  /** ESC in a DCS passthrough first unhooks, then enters Escape as above. */
  lemma EscapeUnhooks(q: PState)
    requires q.Valid() && q.state == DcsPassthrough
    ensures AdvanceSequence(q, C0.ESC) == (Cleared(q).(state := Escape), [E.Unhook])
  {
    EscapeCancelSubFromAnywhere(q.state);
    var r := Cleared(q).(state := Escape);
    assert ExitAction(q, C0.ESC) == (q, [E.Unhook]);
    assert EntryAction(q.(state := Escape), C0.ESC) == (r, []);
    assert StateChange(q, Escape, None, C0.ESC).0 == r;
    assert StateChange(q, Escape, None, C0.ESC).1 == [E.Unhook] + [] + [];
    assert [E.Unhook] + [] + [] == [E.Unhook];
    assert AdvanceSequence(q, C0.ESC) == StateChange(q, Escape, None, C0.ESC);
  }

  /** A state without an entry action: entering it only assigns the state. */
  predicate WithoutEntryAction(s: State)
  {
    s != CsiEntry && s != DcsEntry && s != Escape && s != OscString && s != DcsPassthrough
  }

  /**
   * A table entry that moves to another state between two states without
   * exit and entry actions runs its action and assigns the state.
   */
  lemma TableStep(q: PState, b: u8, target: State, a: Action)
    requires q.Valid() && Transition(q.state, b) == Some((target, Some(a)))
    requires q.state != DcsPassthrough && q.state != OscString
    requires target != Anywhere && WithoutEntryAction(target)
    ensures AdvanceSequence(q, b).0 == ExecuteAction(q, a, b).0.(state := target)
    ensures AdvanceSequence(q, b).1 == ExecuteAction(q, a, b).1
  {
    var r := ExecuteAction(q, a, b);
    assert ExitAction(q, b) == (q, []);
    assert EntryAction(r.0.(state := target), b) == (r.0.(state := target), []);
    assert StateChange(q, target, Some(a), b).0 == r.0.(state := target);
    assert StateChange(q, target, Some(a), b).1 == [] + r.1 + [];
    assert [] + r.1 + [] == r.1;
  }

  /** A table entry that stays in the state runs its action in place. */
  lemma AnywhereStep(q: PState, b: u8, a: Action)
    requires q.Valid() && Transition(q.state, b) == Some((Anywhere, Some(a)))
    ensures AdvanceSequence(q, b) == ExecuteAction(q, a, b)
  {
  }

  /** `Collect` while fewer than two intermediates are stored appends the byte. */
  lemma CollectOne(q: PState, b: u8)
    requires q.Valid() && |q.intermediates| < MAX_INTERMEDIATES
    ensures ExecuteAction(q, Collect, b) == (q.(intermediates := q.intermediates + [b]), [])
  {
  }

  /** Every non-empty prefix of `bytes` leaves the parser outside the ground state. */
  ghost predicate Inside(p: PState, bytes: seq<u8>)
    requires p.Valid()
  {
    forall k :: 1 <= k <= |bytes| ==> Feed(p, bytes[..k]).0.state != Ground
  }

  /** Staying inside for `a`, then inside for `b`, is staying inside for `a + b`. */
  lemma InsideAppend(p: PState, a: seq<u8>, b: seq<u8>)
    requires p.Valid() && Inside(p, a) && Inside(Feed(p, a).0, b)
    ensures Inside(p, a + b)
  {
    forall k | 1 <= k <= |a + b|
      ensures Feed(p, (a + b)[..k]).0.state != Ground
    {
      if k <= |a| {
        assert (a + b)[..k] == a[..k];
      } else {
        assert (a + b)[..k] == a + b[..k - |a|];
        FeedAppend(p, a, b[..k - |a|]);
      }
    }
  }

  /** The part of an inside run after a prefix is an inside run from where the prefix left the parser. */
  lemma InsideSuffix(p: PState, a: seq<u8>, b: seq<u8>)
    requires p.Valid() && Inside(p, a + b)
    ensures Inside(Feed(p, a).0, b)
  {
    forall k | 1 <= k <= |b|
      ensures Feed(Feed(p, a).0, b[..k]).0.state != Ground
    {
      assert (a + b)[..|a| + k] == a + b[..k];
      FeedAppend(p, a, b[..k]);
    }
  }

  /** One byte that leaves the ground state out is an inside run. */
  lemma InsideOne(p: PState, b: u8)
    requires p.Valid() && AdvanceSequence(p, b).0.state != Ground
    ensures Inside(p, [b])
  {
    FeedOne(p, b);
    assert [b][..1] == [b];
  }

  /**
   * A sequence introduced by a C0 byte that stays inside until one last
   * byte `t` goes to the table byte by byte, whatever `t` does.
   */
  lemma AdvanceInside(p: PState, a: seq<u8>, t: u8)
    requires p.Valid() && p.state == Ground && |a| > 0 && C0.InC0Set(a[0]) && Inside(p, a)
    ensures Advance(p, a + [t]).0 == Feed(p, a + [t]).0
    ensures Advance(p, a + [t]).1 == Feed(p, a + [t]).1
  {
    var bytes := a + [t];
    forall k | 1 <= k < |bytes|
      ensures Feed(p, bytes[..k]).0.state != Ground
    {
      assert bytes[..k] == a[..k];
    }
    AdvanceOneSequence(p, bytes);
  }

  /**
   * NAK is the one C0 control the fast text path misses: in text it is
   * printed as a character, while the table would execute it.
   */
  lemma NakInTextIsPrinted()
    ensures Advance(INITIAL, [C0.NAK]) == (INITIAL, [E.Print(ByteChar(C0.NAK))])
    ensures Feed(INITIAL, [C0.NAK]) == (INITIAL, [E.Execute(C0.NAK)])
  {
    NakAdvanced();
    NakFed();
  }

  /** The table executes `NAK` from the ground state. */
  lemma NakFed()
    ensures Feed(INITIAL, [C0.NAK]) == (INITIAL, [E.Execute(C0.NAK)])
  {
    FeedOne(INITIAL, C0.NAK);
    GroundRow(C0.NAK);
    assert Transition(Ground, C0.NAK) == Some((Anywhere, Some(Execute)));
    assert AdvanceSequence(INITIAL, C0.NAK) == ExecuteAction(INITIAL, Execute, C0.NAK);
  }

  /** `advance` finds no sequence byte in `NAK` and prints it as text. */
  lemma NakAdvanced()
    ensures Advance(INITIAL, [C0.NAK]) == (INITIAL, [E.Print(ByteChar(C0.NAK))])
  {
    assert FeedWhileInSequence(INITIAL, [C0.NAK], 0) == (INITIAL, [], 0);
    assert [C0.NAK][0..] == [C0.NAK];
    NakTextLoop();
    AppendEmpty(PrintText([C0.NAK]));
  }

  /** The text loop on `NAK` alone prints it. */
  lemma NakTextLoop()
    ensures PrintText([C0.NAK]) == [E.Print(ByteChar(C0.NAK))]
    ensures TextLoop(INITIAL, [C0.NAK]) == (INITIAL, PrintText([C0.NAK]))
  {
    C0.AllCharacterization(C0.NAK);
    assert C0.FirstIndexOfC0([C0.NAK]).None?;
    PrintTextOfAscii([C0.NAK]);
    assert Latin([C0.NAK]) == [ByteChar(C0.NAK)];
    assert E.Prints([ByteChar(C0.NAK)]) == [E.Print(ByteChar(C0.NAK))];
  }

  /** 7-bit input. */
  predicate SevenBit(s: seq<u8>)
  {
    forall i :: 0 <= i < |s| ==> s[i] < 0x80
  }

  /** A 7-bit run without bytes of the corrected C0 set is printable. */
  lemma CorrectedRunIsPrintable(s: seq<u8>)
    requires SevenBit(s)
    requires forall j :: 0 <= j < |s| ==> s[j] !in C0.ALL_WITH_NAK
    ensures forall i :: 0 <= i < |s| ==> 0x20 <= s[i] <= 0x7E
  {
    forall i | 0 <= i < |s|
      ensures 0x20 <= s[i] <= 0x7E
    {
      C0.AllWithNakCharacterization(s[i]);
    }
  }

  /** A suffix of 7-bit input is 7-bit input. */
  lemma SevenBitSuffixOf(bytes: seq<u8>, i: nat)
    requires SevenBit(bytes) && i <= |bytes|
    ensures SevenBit(bytes[i..])
  {
    var rest := bytes[i..];
    forall j | 0 <= j < |rest|
      ensures rest[j] < 0x80
    {
      assert rest[j] == bytes[i + j];
    }
  }

  lemma CorrectedTextLoopUnfold(p: PState, remaining: seq<u8>, k: nat, s1: (PState, seq<E.Call>), r2: (PState, seq<E.Call>, nat))
    requires p.Valid() && |remaining| > 0 && C0.FirstIndexIn(remaining, C0.ALL_WITH_NAK) == Some(k)
    requires s1 == AdvanceSequence(p, remaining[k])
    requires r2 == FeedWhileInSequence(s1.0, remaining[k..], 1)
    ensures CorrectedTextLoop(p, remaining).0 == CorrectedTextLoop(r2.0, remaining[k..][r2.2..]).0
    ensures CorrectedTextLoop(p, remaining).1 == PrintText(remaining[..k]) + s1.1 + r2.1 + CorrectedTextLoop(r2.0, remaining[k..][r2.2..]).1
  {
    assert remaining[k..][0] == remaining[k];
  }

  /** A printable prefix is printed by the table too, and leaves the ground state alone. */
  lemma PrintableTextIsFeed(p: PState, remaining: seq<u8>, k: nat)
    requires p.Valid() && p.state == Ground && k <= |remaining|
    requires forall j :: 0 <= j < k ==> 0x20 <= remaining[j] <= 0x7E
    ensures Feed(p, remaining[..k]) == (p, PrintText(remaining[..k]))
  {
    var text := remaining[..k];
    GroundPrintsText(p, text);
    PrintTextOfAscii(text);
  }

  /** Feeding one round whose text is printable: the text's characters, then the sequence's calls, then the rest. */
  lemma PrintableRoundIsFeed(p: PState, remaining: seq<u8>, k: nat, s1: (PState, seq<E.Call>), r2: (PState, seq<E.Call>, nat))
    requires p.Valid() && p.state == Ground && k < |remaining|
    requires forall j :: 0 <= j < k ==> 0x20 <= remaining[j] <= 0x7E
    requires s1 == AdvanceSequence(p, remaining[k])
    requires r2 == FeedWhileInSequence(s1.0, remaining[k..], 1)
    ensures Feed(p, remaining).0 == Feed(r2.0, remaining[k..][r2.2..]).0
    ensures Feed(p, remaining).1 == PrintText(remaining[..k]) + s1.1 + r2.1 + Feed(r2.0, remaining[k..][r2.2..]).1
  {
    var text := remaining[..k];
    var rest := remaining[k..];
    SplitAt(remaining, k);
    PrintableTextIsFeed(p, remaining, k);
    assert rest[0] == remaining[k];
    var j := r2.2;
    TextStepIsFeed(p, text, rest, s1, r2);
    var tail := rest[j..];
    var r3 := Feed(r2.0, tail);
    SplitAt(rest, j);
    FeedAppend(p, text, rest);
    FeedAppend(p, rest[..j], tail);
    var printed := PrintText(text);
    assert Feed(p, rest).1 == (s1.1 + r2.1) + r3.1;
    assert Feed(p, remaining).1 == printed + ((s1.1 + r2.1) + r3.1);
    E.CallsAssociative(printed, s1.1, r2.1);
    E.CallsAssociative(printed, s1.1 + r2.1, r3.1);
  }

  /** The 7-bit text before the first byte of the corrected C0 set is printable. */
  lemma CorrectedTextIsPrintable(remaining: seq<u8>, k: nat)
    requires SevenBit(remaining) && C0.FirstIndexIn(remaining, C0.ALL_WITH_NAK) == Some(k)
    ensures forall j :: 0 <= j < k ==> 0x20 <= remaining[j] <= 0x7E
  {
    forall j | 0 <= j < k
      ensures 0x20 <= remaining[j] <= 0x7E
    {
      C0.AllWithNakCharacterization(remaining[j]);
    }
  }

  /** One round of the corrected text loop, given that the rest of the loop is feeding. */
  lemma CorrectedRoundIsFeed(p: PState, remaining: seq<u8>, k: nat)
    requires p.Valid() && p.state == Ground && SevenBit(remaining)
    requires |remaining| > 0 && C0.FirstIndexIn(remaining, C0.ALL_WITH_NAK) == Some(k)
    requires var rest := remaining[k..];
      var s1 := AdvanceSequence(p, rest[0]);
      var r2 := FeedWhileInSequence(s1.0, rest, 1);
      CorrectedTextLoop(r2.0, rest[r2.2..]) == Feed(r2.0, rest[r2.2..])
    ensures CorrectedTextLoop(p, remaining).0 == Feed(p, remaining).0
    ensures CorrectedTextLoop(p, remaining).1 == Feed(p, remaining).1
  {
    var rest := remaining[k..];
    var s1 := AdvanceSequence(p, rest[0]);
    assert rest[0] == remaining[k];
    var r2 := FeedWhileInSequence(s1.0, rest, 1);
    CorrectedTextIsPrintable(remaining, k);
    CorrectedTextLoopUnfold(p, remaining, k, s1, r2);
    PrintableRoundIsFeed(p, remaining, k, s1, r2);
  }

  /** 7-bit text without a byte of the corrected C0 set is printed by the table too. */
  lemma CorrectedTextOnly(p: PState, remaining: seq<u8>)
    requires p.Valid() && p.state == Ground && SevenBit(remaining) && |remaining| > 0
    requires C0.FirstIndexIn(remaining, C0.ALL_WITH_NAK).None?
    ensures CorrectedTextLoop(p, remaining) == Feed(p, remaining)
  {
    CorrectedRunIsPrintable(remaining);
    GroundPrintsText(p, remaining);
    PrintTextOfAscii(remaining);
  }

  /** The corrected text loop on any 7-bit input is feeding it byte by byte. */
  lemma {:induction false} CorrectedTextLoopIsFeed(p: PState, remaining: seq<u8>)
    requires p.Valid() && (p.state == Ground || |remaining| == 0) && SevenBit(remaining)
    ensures CorrectedTextLoop(p, remaining) == Feed(p, remaining)
    decreases |remaining|
  {
    if |remaining| == 0 {
      return;
    }
    match C0.FirstIndexIn(remaining, C0.ALL_WITH_NAK)
    case None =>
      CorrectedTextOnly(p, remaining);
    case Some(k) =>
      var rest := remaining[k..];
      var s1 := AdvanceSequence(p, rest[0]);
      var r2 := FeedWhileInSequence(s1.0, rest, 1);
      var tail := rest[r2.2..];
      SevenBitSuffixOf(remaining, k + r2.2);
      assert tail == remaining[k + r2.2..];
      CorrectedTextLoopIsFeed(r2.0, tail);
      CorrectedRoundIsFeed(p, remaining, k);
  }

  /**
   * With NAK in the C0 set, `advance` does exactly what feeding every byte
   * to the table does on all 7-bit input, NAK included.
   */
  lemma CorrectedAdvanceIsFeed(p: PState, bytes: seq<u8>)
    requires p.Valid() && SevenBit(bytes)
    ensures CorrectedAdvance(p, bytes) == Feed(p, bytes)
  {
    var r1 := FeedWhileInSequence(p, bytes, 0);
    var i := r1.2;
    var rest := bytes[i..];
    FeedWhileIsPrefixFeed(p, bytes);
    SevenBitSuffixOf(bytes, i);
    CorrectedTextLoopIsFeed(r1.0, rest);
    SplitAt(bytes, i);
    FeedAppend(p, bytes[..i], rest);
  }

  /** The corrected `advance` of 7-bit input may be split into chunks anywhere. */
  lemma CorrectedAdvanceInChunks(p: PState, a: seq<u8>, b: seq<u8>)
    requires p.Valid() && SevenBit(a) && SevenBit(b)
    ensures CorrectedAdvance(p, a + b).0 == CorrectedAdvance(CorrectedAdvance(p, a).0, b).0
    ensures CorrectedAdvance(p, a + b).1 == CorrectedAdvance(p, a).1 + CorrectedAdvance(CorrectedAdvance(p, a).0, b).1
  {
    assert SevenBit(a + b) by {
      forall j | 0 <= j < |a + b|
        ensures (a + b)[j] < 0x80
      {
        if j < |a| {
          assert (a + b)[j] == a[j];
        } else {
          assert (a + b)[j] == b[j - |a|];
        }
      }
    }
    CorrectedAdvanceIsFeed(p, a + b);
    CorrectedAdvanceIsFeed(p, a);
    CorrectedAdvanceIsFeed(CorrectedAdvance(p, a).0, b);
    FeedAppend(p, a, b);
  }

  /** Where no NAK occurs, the corrected `advance` is the written one. */
  lemma CorrectedAgreesWithoutNak(p: PState, bytes: seq<u8>)
    requires p.Valid() && SevenBitWithoutNak(bytes)
    ensures CorrectedAdvance(p, bytes) == Advance(p, bytes)
  {
    AdvanceIsFeed(p, bytes);
    CorrectedAdvanceIsFeed(p, bytes);
  }

  /** The corrected `advance` executes NAK from a new parser, where the written one prints it. */
  lemma CorrectedNak()
    ensures CorrectedAdvance(INITIAL, [C0.NAK]) == (INITIAL, [E.Execute(C0.NAK)])
    ensures CorrectedAdvance(INITIAL, [C0.NAK]) != Advance(INITIAL, [C0.NAK])
  {
    CorrectedAdvanceIsFeed(INITIAL, [C0.NAK]);
    NakInTextIsPrinted();
  }
}
