/**
 * Operating system commands as saiga_vte's `OscHandler` reads them, given
 * as an independent reference: the string between `ESC ]` and its
 * terminator is split at `;` into parameters; the parameters' bytes, laid
 * end to end without the separators, form the raw buffer, of which only the
 * first 1024 are kept; at most 16 parameters are dispatched, parameter `i`
 * being the kept raw bytes between its start and end offsets. The lemmas
 * prove that the byte-by-byte `OscPut` action followed by the exit action
 * `OscEnd` dispatches exactly this, for each terminator (BEL, ST and
 * `ESC \`), and work the unit tests' inputs through it.
 */
module VteOsc {
  import opened Common
  import opened Table
  import opened VteParams
  import opened VteModel
  import opened VteProperties
  import opened VteCsi
  import C0
  import E = Executor

  /** The introducer `ESC ]`. */
  const OSC: seq<u8> := [C0.ESC, 0x5D]
  /** The 8-bit string terminator ST. */
  const ST: u8 := 0x9C
  /** The final byte of the 7-bit string terminator `ESC \`. */
  const BACKSLASH: u8 := 0x5C

  /** The bytes the OscString row stores with `OscPut`. */
  predicate IsOscByte(b: u8)
  {
    (0x20 <= b && b <= 0x7F) || 0xA0 <= b
  }

  predicate OscBody(s: seq<u8>)
  {
    forall i :: 0 <= i < |s| ==> IsOscByte(s[i])
  }

  /** The pieces laid end to end. */
  function Concat(fs: seq<seq<u8>>): (r: seq<u8>)
    decreases |fs|
  {
    if |fs| == 0 then [] else Concat(fs[..|fs| - 1]) + fs[|fs| - 1]
  }

  lemma {:induction false} ConcatAppend(a: seq<seq<u8>>, b: seq<seq<u8>>)
    ensures Concat(a + b) == Concat(a) + Concat(b)
    decreases |b|
  {
    if |b| == 0 {
      assert a + b == a;
    } else {
      ConcatAppend(a, b[..|b| - 1]);
      assert (a + b)[..|a + b| - 1] == a + b[..|b| - 1];
    }
  }

  lemma SingleConcat(f: seq<u8>)
    ensures Concat([f]) == f
  {
    var none: seq<seq<u8>> := [];
    assert [f][..0] == none;
  }

  /** Where piece `i` begins in `Concat(fs)`. */
  function Offset(fs: seq<seq<u8>>, i: nat): nat
    requires i <= |fs|
  {
    |Concat(fs[..i])|
  }

  /** Piece `i` lies between its own offset and the next one. */
  lemma OffsetStep(fs: seq<seq<u8>>, i: nat)
    requires i < |fs|
    ensures Offset(fs, i) + |fs[i]| == Offset(fs, i + 1) <= |Concat(fs)|
    ensures Concat(fs)[Offset(fs, i)..Offset(fs, i + 1)] == fs[i]
  {
    var pre := fs[..i + 1];
    assert pre[..i] == fs[..i];
    assert Concat(pre) == Concat(fs[..i]) + fs[i];
    ConcatAppend(pre, fs[i + 1..]);
    assert pre + fs[i + 1..] == fs;
  }

  /** An offset as the raw buffer sees it: at most 1024. */
  function Clamp(n: nat): nat
  {
    if n <= MAX_OSC_RAW then n else MAX_OSC_RAW
  }

  function Pieces(s: seq<u8>): (fs: seq<seq<u8>>)
    ensures |fs| >= 1
  {
    Split(s, PARAM_SEPARATOR)
  }

  /** The raw buffer after the string: its bytes without separators, the first 1024 kept. */
  function OscRaw(s: seq<u8>): (raw: seq<u8>)
    ensures |raw| == Clamp(|Concat(Pieces(s))|)
  {
    Take(Concat(Pieces(s)), MAX_OSC_RAW)
  }

  /** How many parameters the reference dispatches: one per piece, at most 16. */
  function Count(s: seq<u8>): (n: nat)
    ensures n <= |Pieces(s)| && n <= MAX_OSC_PARAMS
  {
    if |Pieces(s)| < MAX_OSC_PARAMS then |Pieces(s)| else MAX_OSC_PARAMS
  }

  lemma ClampedPiece(s: seq<u8>, i: nat)
    requires i < |Pieces(s)|
    ensures Clamp(Offset(Pieces(s), i)) <= Clamp(Offset(Pieces(s), i + 1)) <= |OscRaw(s)|
  {
    OffsetStep(Pieces(s), i);
  }

  /**
   * The parameters an OSC string dispatches: for each of its first 16
   * pieces, the kept raw bytes between the piece's clamped offsets.
   */
  function OscReference(s: seq<u8>): (r: seq<seq<u8>>)
    ensures |r| == Count(s)
  {
    seq(Count(s), i requires 0 <= i < Count(s) =>
      ClampedPiece(s, i);
      OscRaw(s)[Clamp(Offset(Pieces(s), i))..Clamp(Offset(Pieces(s), i + 1))])
  }

  /** While the separator-free bytes fit the buffer, the parameters are the first 16 pieces. */
  lemma ReferenceWithinBuffer(s: seq<u8>)
    requires |Concat(Pieces(s))| <= MAX_OSC_RAW
    ensures OscReference(s) == Take(Pieces(s), MAX_OSC_PARAMS)
  {
    var fs := Pieces(s);
    assert OscRaw(s) == Concat(fs);
    forall i | 0 <= i < Count(s)
      ensures OscReference(s)[i] == fs[i]
    {
      OffsetStep(fs, i);
    }
  }

  /** Beyond the buffer: a single parameter keeps only its first 1024 bytes. */
  lemma ReferenceOverflow(s: seq<u8>)
    requires forall i :: 0 <= i < |s| ==> s[i] != PARAM_SEPARATOR
    requires |s| > MAX_OSC_RAW
    ensures OscReference(s) == [s[..MAX_OSC_RAW]]
  {
    SplitNone(s, PARAM_SEPARATOR);
    var fs := Pieces(s);
    OffsetStep(fs, 0);
    SingleConcat(s);
    assert Offset(fs, 0) == 0 && Offset(fs, 1) == |s|;
    assert OscRaw(s) == s[..MAX_OSC_RAW];
    assert Count(s) == 1;
    assert OscReference(s)[0] == OscRaw(s)[0..MAX_OSC_RAW];
    assert OscRaw(s)[0..MAX_OSC_RAW] == s[..MAX_OSC_RAW];
  }

  // ---------------------------------------------------------------------
  // The handler's state after a string, by induction on the string.

  /** `put` of every byte of `s`, in order. */
  function OscAfter(o: OscValue, s: seq<u8>): (r: OscValue)
    requires o.Valid()
    ensures r.Valid()
    decreases |s|
  {
    if |s| == 0 then o else OscAfter(OscPutByte(o, s[0]), s[1..])
  }

  lemma {:induction false} OscAfterSnoc(o: OscValue, s: seq<u8>, b: u8)
    requires o.Valid()
    ensures OscAfter(o, s + [b]) == OscPutByte(OscAfter(o, s), b)
    decreases |s|
  {
    if |s| == 0 {
      assert (s + [b])[1..] == [];
    } else {
      assert (s + [b])[0] == s[0];
      assert (s + [b])[1..] == s[1..] + [b];
      OscAfterSnoc(OscPutByte(o, s[0]), s[1..], b);
    }
  }

  /**
   * The handler after `s`: the raw buffer is the reference's, and one span
   * per closed piece, at most 16, each between the piece's clamped offsets.
   */
  ghost predicate OscInv(s: seq<u8>, o: OscValue)
  {
    var fs := Pieces(s);
    o.raw == OscRaw(s)
    && |o.spans| == (if |fs| - 1 < MAX_OSC_PARAMS then |fs| - 1 else MAX_OSC_PARAMS)
    && forall i :: 0 <= i < |o.spans| ==> o.spans[i] == (Clamp(Offset(fs, i)), Clamp(Offset(fs, i + 1)))
  }

  /** A separator adds an empty piece and keeps the earlier ones and their offsets. */
  lemma SeparatorPieces(s: seq<u8>)
    ensures Pieces(s + [PARAM_SEPARATOR]) == Pieces(s) + [[]]
    ensures Concat(Pieces(s + [PARAM_SEPARATOR])) == Concat(Pieces(s))
    ensures forall i :: 0 <= i <= |Pieces(s)| ==>
      Offset(Pieces(s + [PARAM_SEPARATOR]), i) == Offset(Pieces(s), i)
  {
    SplitSnoc(s, PARAM_SEPARATOR, PARAM_SEPARATOR);
    var fs := Pieces(s);
    var fs' := fs + [[]];
    assert fs'[..|fs'| - 1] == fs;
    forall i | 0 <= i <= |fs|
      ensures Offset(fs', i) == Offset(fs, i)
    {
      assert fs'[..i] == fs[..i];
    }
  }

  /** Another byte extends the last piece and keeps the earlier offsets. */
  lemma BytePieces(s: seq<u8>, b: u8)
    requires b != PARAM_SEPARATOR
    ensures |Pieces(s + [b])| == |Pieces(s)|
    ensures Concat(Pieces(s + [b])) == Concat(Pieces(s)) + [b]
    ensures forall i :: 0 <= i < |Pieces(s)| ==>
      Offset(Pieces(s + [b]), i) == Offset(Pieces(s), i)
  {
    SplitSnoc(s, b, PARAM_SEPARATOR);
    var fs := Pieces(s);
    var n := |fs|;
    var fs' := Pieces(s + [b]);
    assert fs'[..n - 1] == fs[..n - 1];
    assert fs[..n - 1] + [fs[n - 1]] == fs;
    ConcatAppend(fs[..n - 1], [fs[n - 1]]);
    ConcatAppend(fs[..n - 1], [fs[n - 1] + [b]]);
    assert fs[..n - 1] + [fs[n - 1] + [b]] == fs';
    SingleConcat(fs[n - 1] + [b]);
    SingleConcat(fs[n - 1]);
    forall i | 0 <= i < n
      ensures Offset(fs', i) == Offset(fs, i)
    {
      assert fs'[..i] == fs[..i];
    }
  }

  lemma SeparatorInv(s: seq<u8>, o: OscValue)
    requires o.Valid() && OscInv(s, o)
    ensures OscInv(s + [PARAM_SEPARATOR], OscPutByte(o, PARAM_SEPARATOR))
  {
    SeparatorPieces(s);
    var fs := Pieces(s);
    var n := |fs|;
    assert OscRaw(s + [PARAM_SEPARATOR]) == OscRaw(s);
    if |o.spans| < MAX_OSC_PARAMS {
      var r := OscPutByte(o, PARAM_SEPARATOR);
      assert r.spans == o.spans + [(NextSpanBegin(o.spans), |o.raw|)];
      assert fs[..n] == fs;
      assert Offset(fs, 0) == 0;
      assert NextSpanBegin(o.spans) == Clamp(Offset(fs, n - 1));
    }
  }

  lemma ByteInv(s: seq<u8>, o: OscValue, b: u8)
    requires o.Valid() && OscInv(s, o) && b != PARAM_SEPARATOR
    ensures OscInv(s + [b], OscPutByte(o, b))
  {
    BytePieces(s, b);
    var c := Concat(Pieces(s));
    TakeSnoc(c, b, MAX_OSC_RAW);
    assert OscRaw(s + [b]) == Take(c + [b], MAX_OSC_RAW);
  }

  lemma {:induction false} OscAfterInv(s: seq<u8>)
    ensures OscInv(s, OscAfter(EMPTY_OSC, s))
    decreases |s|
  {
    if |s| == 0 {
      assert Pieces(s) == [[]];
      assert OscRaw(s) == [];
    } else {
      var init := s[..|s| - 1];
      var b := s[|s| - 1];
      OscAfterInv(init);
      assert init + [b] == s;
      OscAfterSnoc(EMPTY_OSC, init, b);
      if b == PARAM_SEPARATOR {
        SeparatorInv(init, OscAfter(EMPTY_OSC, init));
      } else {
        ByteInv(init, OscAfter(EMPTY_OSC, init), b);
      }
    }
  }

  /** `end` closes the last piece, and the slices handed to `osc_dispatch` are the reference. */
  lemma EndIsReference(s: seq<u8>, o: OscValue)
    requires o.Valid() && OscInv(s, o)
    ensures OscSlices(CloseOscParam(o)) == OscReference(s)
  {
    var fs := Pieces(s);
    var c := CloseOscParam(o);
    EndSpans(s, o);
    var slices := OscSlices(c);
    var r := OscReference(s);
    forall i | 0 <= i < |r|
      ensures slices[i] == r[i]
    {
    }
  }

  /** After `end`, one span per piece, at most 16, between the pieces' clamped offsets. */
  lemma EndSpans(s: seq<u8>, o: OscValue)
    requires o.Valid() && OscInv(s, o)
    ensures |CloseOscParam(o).spans| == Count(s)
    ensures forall i :: 0 <= i < Count(s) ==>
      CloseOscParam(o).spans[i] == (Clamp(Offset(Pieces(s), i)), Clamp(Offset(Pieces(s), i + 1)))
  {
    if |o.spans| < MAX_OSC_PARAMS {
      EndClosesLast(s, o);
    }
  }

  /** Below 16 spans, `end` adds the span of the last piece. */
  lemma EndClosesLast(s: seq<u8>, o: OscValue)
    requires o.Valid() && OscInv(s, o) && |o.spans| < MAX_OSC_PARAMS
    ensures |CloseOscParam(o).spans| == Count(s)
    ensures forall i :: 0 <= i < Count(s) ==>
      CloseOscParam(o).spans[i] == (Clamp(Offset(Pieces(s), i)), Clamp(Offset(Pieces(s), i + 1)))
  {
    var fs := Pieces(s);
    var n := |fs|;
    var c := CloseOscParam(o);
    assert c.spans == o.spans + [(NextSpanBegin(o.spans), |o.raw|)];
    assert fs[..n] == fs;
    assert Offset(fs, 0) == 0;
    assert |o.raw| == Clamp(Offset(fs, n));
    assert NextSpanBegin(o.spans) == Clamp(Offset(fs, n - 1));
  }

  // ---------------------------------------------------------------------
  // The parser on an OSC string.

  /** The parser just after `ESC ]` from `p`. */
  function Opened(p: PState): (q: PState)
    ensures q.state == OscString && q.osc == EMPTY_OSC && q.intermediates == []
  {
    p.(state := OscString, params := EMPTY_PARAMS, subparam := 0, ignoring := false, intermediates := [], osc := EMPTY_OSC)
  }

  /** `ESC ]` from the ground state enters OscString, runs `start` and calls nothing. */
  lemma OscIntroducer(p: PState)
    requires p.Valid() && p.state == Ground
    ensures Feed(p, OSC).0 == Opened(p) && Feed(p, OSC).1 == []
    ensures Feed(p, [C0.ESC]).0.state == Escape
  {
    EscapeCancels(p);
    var q := AdvanceSequence(p, C0.ESC).0;
    FeedOne(p, C0.ESC);
    assert Transition(Escape, 0x5D) == Some((OscString, None));
    assert ExitAction(q, 0x5D) == (q, []);
    assert EntryAction(q.(state := OscString), 0x5D) == (Opened(p), []);
    assert StateChange(q, OscString, None, 0x5D) == (Opened(p), [] + [] + []);
    assert AdvanceSequence(q, 0x5D) == (Opened(p), []);
    assert OSC[1..] == [0x5D];
    FeedOne(q, 0x5D);
  }

  /** A stored byte of an OSC string runs `put` and nothing else. */
  lemma OscPutStep(q: PState, b: u8)
    requires q.Valid() && q.state == OscString && IsOscByte(b)
    ensures AdvanceSequence(q, b) == (q.(osc := OscPutByte(q.osc, b)), [])
  {
    OscStringRow(b);
  }

  lemma {:induction false} FeedOscBody(q: PState, s: seq<u8>)
    requires q.Valid() && q.state == OscString && OscBody(s)
    ensures Feed(q, s).0 == q.(osc := OscAfter(q.osc, s)) && Feed(q, s).1 == []
    decreases |s|
  {
    if |s| > 0 {
      OscPutStep(q, s[0]);
      var q1 := q.(osc := OscPutByte(q.osc, s[0]));
      FeedOscBody(q1, s[1..]);
      assert Feed(q, s).1 == [] + Feed(q1, s[1..]).1;
    }
  }

  /** After `ESC ] s` the parser is in OscString with the handler of `s`, having called nothing. */
  lemma OscOpened(p: PState, s: seq<u8>)
    requires p.Valid() && p.state == Ground && OscBody(s)
    ensures Feed(p, OSC + s).0 == Opened(p).(osc := OscAfter(EMPTY_OSC, s))
    ensures Feed(p, OSC + s).1 == []
  {
    OscIntroducer(p);
    FeedAppend(p, OSC, s);
    FeedOscBody(Opened(p), s);
  }

  /** Every proper prefix of `ESC ] s t` leaves the parser inside the sequence. */
  lemma InsideOsc(p: PState, s: seq<u8>, t: seq<u8>)
    requires p.Valid() && p.state == Ground && OscBody(s)
    ensures forall k :: 1 <= k <= 2 + |s| ==> Feed(p, (OSC + s + t)[..k]).0.state != Ground
  {
    OscIntroducer(p);
    forall k | 1 <= k <= 2 + |s|
      ensures Feed(p, (OSC + s + t)[..k]).0.state != Ground
    {
      if k == 1 {
        assert (OSC + s + t)[..k] == [C0.ESC];
      } else {
        var s' := s[..k - 2];
        assert (OSC + s + t)[..k] == OSC + s';
        assert OscBody(s') by {
          forall i | 0 <= i < |s'| ensures IsOscByte(s'[i]) {
            assert s'[i] == s[i];
          }
        }
        OscOpened(p, s');
      }
    }
  }

  /** The exit action of OscString at terminator `t`: `end`, then dispatch. */
  function Ended(q: PState, t: u8): (r: (PState, seq<E.Call>))
    requires q.Valid()
  {
    var o := CloseOscParam(q.osc);
    (q.(osc := o), [E.OscDispatch(OscSlices(o), t == BEL)])
  }

  /** BEL and ST end the string and return to the ground state. */
  lemma GroundTerminatorStep(q: PState, t: u8)
    requires q.Valid() && q.state == OscString && (t == BEL || t == ST)
    ensures AdvanceSequence(q, t) == (Ended(q, t).0.(state := Ground), Ended(q, t).1)
  {
    OscStringRow(t);
    var e := Ended(q, t);
    assert Transition(OscString, t) == Some((Ground, None));
    assert ExitAction(q, t) == e;
    assert EntryAction(e.0.(state := Ground), t) == (e.0.(state := Ground), []);
    assert StateChange(q, Ground, None, t) == (e.0.(state := Ground), e.1 + [] + []);
    assert e.1 + [] + [] == e.1;
  }

  /** ESC ends the string and enters Escape, clearing the accumulators. */
  lemma EscapeTerminatorStep(q: PState)
    requires q.Valid() && q.state == OscString
    ensures var e := Ended(q, C0.ESC);
      AdvanceSequence(q, C0.ESC) ==
        (e.0.(state := Escape, params := EMPTY_PARAMS, subparam := 0, ignoring := false, intermediates := []), e.1)
  {
    EscapeCancelSubFromAnywhere(OscString);
    var e := Ended(q, C0.ESC);
    var r := e.0.(state := Escape, params := EMPTY_PARAMS, subparam := 0, ignoring := false, intermediates := []);
    assert ExitAction(q, C0.ESC) == e;
    assert EntryAction(e.0.(state := Escape), C0.ESC) == (r, []);
    assert StateChange(q, Escape, None, C0.ESC) == (r, e.1 + [] + []);
    assert e.1 + [] + [] == e.1;
  }

  /** `\` after ESC is an escape dispatch with no intermediates, back in the ground state. */
  lemma BackslashStep(r: PState)
    requires r.Valid() && r.state == Escape && r.intermediates == [] && !r.ignoring
    ensures AdvanceSequence(r, BACKSLASH) == (r.(state := Ground), [E.EscDispatch([], false, BACKSLASH)])
  {
    var call := E.EscDispatch([], false, BACKSLASH);
    assert Transition(Escape, BACKSLASH) == Some((Ground, Some(EscDispatch)));
    assert ExitAction(r, BACKSLASH) == (r, []);
    assert ExecuteAction(r, EscDispatch, BACKSLASH) == (r, [call]);
    assert EntryAction(r.(state := Ground), BACKSLASH) == (r.(state := Ground), []);
    assert StateChange(r, Ground, Some(EscDispatch), BACKSLASH) == (r.(state := Ground), [] + [call] + []);
    assert [] + [call] + [] == [call];
  }

  /** What `ESC ] s` followed by terminator `t` hands to `osc_dispatch`. */
  lemma TerminatedBody(p: PState, s: seq<u8>, t: u8)
    requires p.Valid() && p.state == Ground && OscBody(s)
    ensures var q := Feed(p, OSC + s).0;
      q.Valid() && q.state == OscString && Feed(p, OSC + s).1 == []
      && Ended(q, t).1 == [E.OscDispatch(OscReference(s), t == BEL)]
  {
    OscOpened(p, s);
    var q := Feed(p, OSC + s).0;
    OscAfterInv(s);
    EndIsReference(s, q.osc);
  }

  /**
   * `ESC ] s BEL` and `ESC ] s ST` from the ground state make exactly one
   * `osc_dispatch` call, with the reference parameters and `bell_terminated`
   * true exactly for BEL, and return to the ground state.
   */
  lemma OscDispatchesReference(p: PState, s: seq<u8>, t: u8)
    requires p.Valid() && p.state == Ground && OscBody(s) && (t == BEL || t == ST)
    ensures Advance(p, OSC + s + [t]).1 == [E.OscDispatch(OscReference(s), t == BEL)]
    ensures Advance(p, OSC + s + [t]).0.state == Ground
  {
    var bytes := OSC + s + [t];
    InsideOsc(p, s, [t]);
    C0.AllCharacterization(C0.ESC);
    AdvanceOneSequence(p, bytes);
    FeedAppend(p, OSC + s, [t]);
    TerminatedBody(p, s, t);
    var q := Feed(p, OSC + s).0;
    GroundTerminatorStep(q, t);
    FeedOne(q, t);
    assert Feed(p, bytes).1 == [] + Ended(q, t).1;
  }

  /**
   * `ESC ] s ESC` dispatches the reference parameters, not bell-terminated,
   * at the ESC, and leaves the parser in Escape with cleared accumulators.
   */
  lemma OscEscapeDispatchesReference(p: PState, s: seq<u8>)
    requires p.Valid() && p.state == Ground && OscBody(s)
    ensures Advance(p, OSC + s + [C0.ESC]).1 == [E.OscDispatch(OscReference(s), false)]
    ensures var r := Advance(p, OSC + s + [C0.ESC]).0;
      r.state == Escape && r.intermediates == [] && !r.ignoring
  {
    var bytes := OSC + s + [C0.ESC];
    InsideOsc(p, s, [C0.ESC]);
    C0.AllCharacterization(C0.ESC);
    AdvanceOneSequence(p, bytes);
    FeedAppend(p, OSC + s, [C0.ESC]);
    TerminatedBody(p, s, C0.ESC);
    var q := Feed(p, OSC + s).0;
    EscapeTerminatorStep(q);
    FeedOne(q, C0.ESC);
    assert Feed(p, bytes).1 == [] + Ended(q, C0.ESC).1;
  }

  /** `ESC \\` after the body: the dispatch at ESC, then the escape dispatch. */
  lemma FeedStringTerminator(p: PState, s: seq<u8>)
    requires p.Valid() && p.state == Ground && OscBody(s)
    ensures Feed(p, OSC + s + [C0.ESC]).0.state == Escape
    ensures Feed(p, OSC + s + [C0.ESC, BACKSLASH]).1 ==
      [E.OscDispatch(OscReference(s), false), E.EscDispatch([], false, BACKSLASH)]
    ensures Feed(p, OSC + s + [C0.ESC, BACKSLASH]).0.state == Ground
  {
    var q := Feed(p, OSC + s).0;
    TerminatedBody(p, s, C0.ESC);
    EscapeTerminatorStep(q);
    var r := AdvanceSequence(q, C0.ESC).0;
    FeedOne(q, C0.ESC);
    FeedAppend(p, OSC + s, [C0.ESC]);
    assert OSC + s + [C0.ESC, BACKSLASH] == (OSC + s) + [C0.ESC, BACKSLASH];
    FeedAppend(p, OSC + s, [C0.ESC, BACKSLASH]);
    BackslashStep(r);
    assert [C0.ESC, BACKSLASH][1..] == [BACKSLASH];
    FeedOne(r, BACKSLASH);
    var d := [E.EscDispatch([], false, BACKSLASH)];
    assert Feed(q, [C0.ESC, BACKSLASH]).1 == Ended(q, C0.ESC).1 + d;
    assert Feed(p, OSC + s + [C0.ESC, BACKSLASH]).1 == [] + (Ended(q, C0.ESC).1 + d);
  }

  /**
   * `ESC ] s ESC \` dispatches the reference parameters, not
   * bell-terminated, then the escape sequence `ESC \` itself, and returns
   * to the ground state.
   */
  lemma OscStringTerminatorDispatches(p: PState, s: seq<u8>)
    requires p.Valid() && p.state == Ground && OscBody(s)
    ensures Advance(p, OSC + s + [C0.ESC, BACKSLASH]).1 ==
      [E.OscDispatch(OscReference(s), false), E.EscDispatch([], false, BACKSLASH)]
    ensures Advance(p, OSC + s + [C0.ESC, BACKSLASH]).0.state == Ground
  {
    var bytes := OSC + s + [C0.ESC, BACKSLASH];
    InsideStringTerminator(p, s);
    FeedStringTerminator(p, s);
    C0.AllCharacterization(C0.ESC);
    AdvanceOneSequence(p, bytes);
  }

  lemma InsideStringTerminator(p: PState, s: seq<u8>)
    requires p.Valid() && p.state == Ground && OscBody(s)
    ensures var bytes := OSC + s + [C0.ESC, BACKSLASH];
      forall k :: 1 <= k < |bytes| ==> Feed(p, bytes[..k]).0.state != Ground
  {
    var bytes := OSC + s + [C0.ESC, BACKSLASH];
    InsideOsc(p, s, [C0.ESC, BACKSLASH]);
    FeedStringTerminator(p, s);
    forall k | 1 <= k < |bytes|
      ensures Feed(p, bytes[..k]).0.state != Ground
    {
      if k == 3 + |s| {
        assert bytes[..k] == OSC + s + [C0.ESC];
      }
    }
  }

  // ---------------------------------------------------------------------
  // The unit tests' inputs.

  predicate NoSeparator(a: seq<u8>)
  {
    forall i :: 0 <= i < |a| ==> a[i] != PARAM_SEPARATOR
  }

  lemma BodyJoin(a: seq<u8>, b: seq<u8>)
    requires OscBody(a) && OscBody(b)
    ensures OscBody(a + [PARAM_SEPARATOR] + b)
  {
    var c := a + [PARAM_SEPARATOR] + b;
    forall i | 0 <= i < |c| ensures IsOscByte(c[i]) {
      if i < |a| {
        assert c[i] == a[i];
      } else if i > |a| {
        assert c[i] == b[i - |a| - 1];
      }
    }
  }

  /** Two separator-free parameters that fit the buffer are dispatched as they are. */
  lemma TwoParams(a: seq<u8>, b: seq<u8>)
    requires NoSeparator(a) && NoSeparator(b) && |a| + |b| <= MAX_OSC_RAW
    ensures OscReference(a + [PARAM_SEPARATOR] + b) == [a, b]
  {
    var s := a + [PARAM_SEPARATOR] + b;
    SplitJoin(a, b, PARAM_SEPARATOR);
    SplitNone(a, PARAM_SEPARATOR);
    SplitNone(b, PARAM_SEPARATOR);
    assert Pieces(s) == [a] + [b];
    ConcatAppend([a], [b]);
    SingleConcat(a);
    SingleConcat(b);
    ReferenceWithinBuffer(s);
  }

  lemma {:induction false} ConcatOfEmpties(n: nat)
    ensures Concat(Repeat<seq<u8>>(n, [])) == []
  {
    if n > 0 {
      var none: seq<u8> := [];
      ConcatOfEmpties(n - 1);
      ConcatAppend([none], Repeat<seq<u8>>(n - 1, none));
      SingleConcat(none);
    }
  }

  /** `k` separators: `k + 1` empty parameters, of which at most 16 are dispatched. */
  lemma SeparatorsOnly(k: nat)
    ensures OscBody(Repeat(k, PARAM_SEPARATOR))
    ensures OscReference(Repeat(k, PARAM_SEPARATOR)) == Take<seq<u8>>(Repeat<seq<u8>>(k + 1, []), MAX_OSC_PARAMS)
  {
    SplitOfSeparators(k, PARAM_SEPARATOR);
    assert Pieces(Repeat(k, PARAM_SEPARATOR)) == Repeat<seq<u8>>(k + 1, []);
    ConcatOfEmpties(k + 1);
    ReferenceWithinBuffer(Repeat(k, PARAM_SEPARATOR));
  }

  lemma TakeRepeat<T>(n: nat, m: nat, x: T)
    requires m <= n
    ensures Take(Repeat(n, x), m) == Repeat(m, x)
  {
  }

  /** The window title of the `parse` test, `jwilm@jwilm-desk: ~/code/saiga`. */
  const TITLE: seq<u8> := [
    0x6A, 0x77, 0x69, 0x6C, 0x6D, 0x40, 0x6A, 0x77, 0x69, 0x6C, 0x6D, 0x2D, 0x64, 0x65, 0x73,
    0x6B, 0x3A, 0x20, 0x7E, 0x2F, 0x63, 0x6F, 0x64, 0x65, 0x2F, 0x73, 0x61, 0x69, 0x67, 0x61
  ]

  lemma TitleBytes()
    ensures OscBody(TITLE) && NoSeparator(TITLE) && |TITLE| == 30
  {
  }

  /** Test `parse`: `ESC ] 2;<title> ST` dispatches `2` and the title, not bell-terminated. */
  lemma ParseTitle()
    ensures Advance(INITIAL, OSC + ([0x32, PARAM_SEPARATOR] + TITLE) + [ST]).1 ==
      [E.OscDispatch([[0x32], TITLE], false)]
  {
    TitleBytes();
    var body := [0x32] + [PARAM_SEPARATOR] + TITLE;
    assert [0x32, PARAM_SEPARATOR] + TITLE == body;
    BodyJoin([0x32], TITLE);
    TwoParams([0x32], TITLE);
    OscDispatchesReference(INITIAL, body, ST);
  }

  /** Test `parse_empty`: `ESC ] BEL` dispatches one empty parameter, bell-terminated. */
  lemma ParseEmpty()
    ensures Advance(INITIAL, [C0.ESC, 0x5D, BEL]).1 == [E.OscDispatch([[]], true)]
  {
    var none: seq<u8> := [];
    SeparatorsOnly(0);
    assert Repeat(0, PARAM_SEPARATOR) == none;
    assert Take<seq<u8>>(Repeat<seq<u8>>(1, none), MAX_OSC_PARAMS) == [none];
    OscDispatchesReference(INITIAL, none, BEL);
    assert OSC + none + [BEL] == [C0.ESC, 0x5D, BEL];
  }

  /** `k` separators ended by ESC: the first 16 of the `k + 1` empty parameters are dispatched. */
  lemma SeparatorsDispatch(k: nat)
    ensures Advance(INITIAL, OSC + Repeat(k, PARAM_SEPARATOR) + [C0.ESC]).1 ==
      [E.OscDispatch(Take<seq<u8>>(Repeat<seq<u8>>(k + 1, []), MAX_OSC_PARAMS), false)]
  {
    SeparatorsOnly(k);
    OscEscapeDispatchesReference(INITIAL, Repeat(k, PARAM_SEPARATOR));
  }

  /** Test `parse_max_params`: 17 separators give exactly 16 empty parameters. */
  lemma MaxParams()
    ensures Advance(INITIAL, OSC + Repeat(MAX_PARAMS + 1, PARAM_SEPARATOR) + [C0.ESC]).1 ==
      [E.OscDispatch(Repeat<seq<u8>>(MAX_OSC_PARAMS, []), false)]
  {
    SeparatorsDispatch(MAX_PARAMS + 1);
    TakeRepeat<seq<u8>>(MAX_PARAMS + 2, MAX_OSC_PARAMS, []);
  }

  /**
   * Test `exceed_max_buffer_size`, for any number `n` of bytes `a`: the
   * three `advance` calls `ESC ] 52;s`, `a` repeated `n` times, and BEL
   * dispatch `52` and `s` followed by the `a`s, bell-terminated, as long as
   * the 3 + n stored bytes fit the buffer.
   */
  lemma LongParamInChunks(n: nat)
    requires n + 3 <= MAX_OSC_RAW
    ensures var r1 := Advance(INITIAL, OSC + [0x35, 0x32, PARAM_SEPARATOR, 0x73]);
      var r2 := Advance(r1.0, Repeat<u8>(n, 0x61));
      var r3 := Advance(r2.0, [BEL]);
      r1.1 + r2.1 + r3.1 == [E.OscDispatch([[0x35, 0x32], [0x73] + Repeat<u8>(n, 0x61)], true)]
  {
    var a := OSC + [0x35, 0x32, PARAM_SEPARATOR, 0x73];
    var b := Repeat<u8>(n, 0x61);
    var c := [BEL];
    var r1 := Advance(INITIAL, a);
    var r2 := Advance(r1.0, b);
    var r3 := Advance(r2.0, c);
    LongParamChunks(n);
    AdvanceInChunks(INITIAL, a, b);
    var whole := Advance(INITIAL, a + b);
    assert whole.0 == r2.0 && whole.1 == r1.1 + r2.1;
    AdvanceInChunks(INITIAL, a + b, c);
    assert Advance(INITIAL, a + b + c).1 == whole.1 + r3.1;
    var body := [0x35, 0x32] + [PARAM_SEPARATOR] + ([0x73] + b);
    LongParamBody(n);
    OscDispatchesReference(INITIAL, body, BEL);
    assert a + b + c == OSC + body + [BEL];
  }

  lemma LongParamChunks(n: nat)
    ensures SevenBitWithoutNak(OSC + [0x35, 0x32, PARAM_SEPARATOR, 0x73])
    ensures SevenBitWithoutNak(Repeat<u8>(n, 0x61)) && SevenBitWithoutNak([BEL])
    ensures SevenBitWithoutNak(OSC + [0x35, 0x32, PARAM_SEPARATOR, 0x73] + Repeat<u8>(n, 0x61))
    ensures OSC + [0x35, 0x32, PARAM_SEPARATOR, 0x73] + Repeat<u8>(n, 0x61) + [BEL] ==
      OSC + ([0x35, 0x32] + [PARAM_SEPARATOR] + ([0x73] + Repeat<u8>(n, 0x61))) + [BEL]
  {
    var a := OSC + [0x35, 0x32, PARAM_SEPARATOR, 0x73];
    var b := Repeat<u8>(n, 0x61);
    assert SevenBitWithoutNak(a + b) by {
      forall i | 0 <= i < |a + b| ensures (a + b)[i] < 0x80 && (a + b)[i] != C0.NAK {
        if i >= |a| {
          assert (a + b)[i] == b[i - |a|];
        }
      }
    }
  }

  lemma LongParamBody(n: nat)
    requires n + 3 <= MAX_OSC_RAW
    ensures var body := [0x35, 0x32] + [PARAM_SEPARATOR] + ([0x73] + Repeat<u8>(n, 0x61));
      OscBody(body) && OscReference(body) == [[0x35, 0x32], [0x73] + Repeat<u8>(n, 0x61)]
  {
    var first: seq<u8> := [0x35, 0x32];
    var second := [0x73] + Repeat<u8>(n, 0x61);
    assert OscBody(second) && NoSeparator(second) by {
      forall i | 0 <= i < |second| ensures second[i] == 0x73 || second[i] == 0x61 {
        if i > 0 {
          assert second[i] == Repeat<u8>(n, 0x61)[i - 1];
        }
      }
    }
    BodyJoin(first, second);
    TwoParams(first, second);
  }

  /** The test's instance: 116 bytes `a`, so the second parameter has 117 bytes. */
  lemma ExceedMaxBufferSize()
    ensures var r1 := Advance(INITIAL, OSC + [0x35, 0x32, PARAM_SEPARATOR, 0x73]);
      var r2 := Advance(r1.0, Repeat<u8>(MAX_OSC_PARAMS + 100, 0x61));
      var r3 := Advance(r2.0, [BEL]);
      r1.1 + r2.1 + r3.1 == [E.OscDispatch([[0x35, 0x32], [0x73] + Repeat<u8>(MAX_OSC_PARAMS + 100, 0x61)], true)]
      && |[0x73] + Repeat<u8>(MAX_OSC_PARAMS + 100, 0x61)| == 117
  {
    LongParamInChunks(MAX_OSC_PARAMS + 100);
  }

  /** A single parameter longer than the buffer dispatches only its first 1024 bytes. */
  lemma OverflowDispatch(p: PState, s: seq<u8>)
    requires p.Valid() && p.state == Ground && OscBody(s) && NoSeparator(s) && |s| > MAX_OSC_RAW
    ensures Advance(p, OSC + s + [BEL]).1 == [E.OscDispatch([s[..MAX_OSC_RAW]], true)]
  {
    ReferenceOverflow(s);
    OscDispatchesReference(p, s, BEL);
  }

  /** Test `bell_terminated`: `ESC ] 11;ff/00/ff BEL` is bell-terminated. */
  lemma BellTerminated()
    ensures Advance(INITIAL, OSC + [0x31, 0x31, PARAM_SEPARATOR, 0x66, 0x66, 0x2F, 0x30, 0x30, 0x2F, 0x66, 0x66] + [BEL]).1 ==
      [E.OscDispatch([[0x31, 0x31], [0x66, 0x66, 0x2F, 0x30, 0x30, 0x2F, 0x66, 0x66]], true)]
  {
    var a: seq<u8> := [0x31, 0x31];
    var b: seq<u8> := [0x66, 0x66, 0x2F, 0x30, 0x30, 0x2F, 0x66, 0x66];
    assert [0x31, 0x31, PARAM_SEPARATOR, 0x66, 0x66, 0x2F, 0x30, 0x30, 0x2F, 0x66, 0x66] == a + [PARAM_SEPARATOR] + b;
    BodyJoin(a, b);
    TwoParams(a, b);
    OscDispatchesReference(INITIAL, a + [PARAM_SEPARATOR] + b, BEL);
  }
}
