/**
 * Whole escape, control and device control sequences through the saiga_vte
 * parser model: ESC interrupts a sequence in progress and discards what it
 * collected; a private marker and intermediate bytes are collected; a DCS
 * string hooks with its parameters, puts every data byte and unhooks at the
 * string terminator or at the ESC that interrupts it.
 */
module VteSequences {
  import opened Common
  import opened Table
  import opened VteParams
  import opened VteModel
  import opened VteProperties
  import opened VteCsi
  import C0
  import E = Executor

  const CSI_INTRODUCER: u8 := 0x5B
  const DCS_INTRODUCER: u8 := 0x50

  predicate IsIntermediate(b: u8)
  {
    0x20 <= b <= 0x2F
  }

  predicate IsPrivateMarker(b: u8)
  {
    0x3C <= b <= 0x3F
  }

  predicate IsFinal(b: u8)
  {
    0x40 <= b <= 0x7E
  }

  /** Two feeds whose first byte takes both parsers to the same state, calling nothing, agree from then on. */
  lemma SameAfterFirst(p: PState, q: PState, t: seq<u8>)
    requires p.Valid() && q.Valid() && |t| > 0
    requires AdvanceSequence(p, t[0]) == AdvanceSequence(q, t[0]) && AdvanceSequence(p, t[0]).1 == []
    ensures Feed(p, t) == Feed(q, t)
    ensures Inside(p, t) <==> Inside(q, t)
  {
    forall k | 1 <= k <= |t|
      ensures Feed(p, t[..k]) == Feed(q, t[..k])
    {
      assert t[..k][0] == t[0];
    }
    assert t[..|t|] == t;
  }

  // ---------------------------------------------------------------- CSI

  /** The prefix states of a CSI parameter string: never the ground state. */
  lemma CsiPrefixInside(p: PState, s: seq<u8>)
    requires p.Valid() && p.state == Ground && ParamString(s)
    ensures Inside(p, [C0.ESC, CSI_INTRODUCER] + s)
  {
    var intro: seq<u8> := [C0.ESC, CSI_INTRODUCER];
    CsiIntroducer(p);
    EscapeCancels(p);
    InsideOne(p, C0.ESC);
    var q := Feed(p, [C0.ESC]).0;
    FeedOne(p, C0.ESC);
    assert intro == [C0.ESC] + [CSI_INTRODUCER];
    FeedAppend(p, [C0.ESC], [CSI_INTRODUCER]);
    InsideOne(q, CSI_INTRODUCER);
    InsideAppend(p, [C0.ESC], [CSI_INTRODUCER]);
    var q1 := Feed(p, intro).0;
    forall k | 1 <= k <= |s|
      ensures Feed(q1, s[..k]).0.state != Ground
    {
      assert ParamString(s[..k]);
      FeedParamString(q1, s[..k]);
    }
    InsideAppend(p, intro, s);
  }

  /** After `ESC [ s` nothing was called, and ESC leads where it leads from the ground state. */
  lemma CsiPrefixState(p: PState, s: seq<u8>)
    requires p.Valid() && p.state == Ground && ParamString(s)
    ensures Feed(p, [C0.ESC, CSI_INTRODUCER] + s).1 == []
    ensures AdvanceSequence(Feed(p, [C0.ESC, CSI_INTRODUCER] + s).0, C0.ESC) == AdvanceSequence(p, C0.ESC)
  {
    CsiIntroducer(p);
    var q0 := Feed(p, [C0.ESC, CSI_INTRODUCER]).0;
    assert AccOf(q0) == START;
    FeedAppend(p, [C0.ESC, CSI_INTRODUCER], s);
    FeedParamString(q0, s);
    var q := Feed(p, [C0.ESC, CSI_INTRODUCER] + s).0;
    assert InCsiParams(q) && q.osc == p.osc;
    EscapeCancels(q);
    EscapeCancels(p);
    assert Cleared(q).(state := Escape) == Cleared(p).(state := Escape);
  }

  /**
   * ESC in the middle of a control sequence discards it: `ESC [ s` and
   * then bytes `t` that begin with ESC do exactly what `t` alone does,
   * and stay inside a sequence as long as `t` does.
   */
  lemma CsiInterrupted(p: PState, s: seq<u8>, t: seq<u8>)
    requires p.Valid() && p.state == Ground && ParamString(s) && |t| > 0 && t[0] == C0.ESC
    ensures Feed(p, [C0.ESC, CSI_INTRODUCER] + s + t).0 == Feed(p, t).0
    ensures Feed(p, [C0.ESC, CSI_INTRODUCER] + s + t).1 == Feed(p, t).1
    ensures Inside(p, t) ==> Inside(p, [C0.ESC, CSI_INTRODUCER] + s + t)
  {
    var u := [C0.ESC, CSI_INTRODUCER] + s;
    CsiPrefixState(p, s);
    var q := Feed(p, u).0;
    EscapeCancels(p);
    SameAfterFirst(q, p, t);
    FeedAppend(p, u, t);
    E.EmptyEnds([], [], Feed(q, t).1, []);
    if Inside(p, t) {
      CsiPrefixInside(p, s);
      InsideAppend(p, u, t);
    }
  }

  /** `ESC [ m`, with `m` a private marker, starts the parameters with `m` as the one intermediate. */
  lemma CsiMarker(p: PState, m: u8)
    requires p.Valid() && p.state == Ground && IsPrivateMarker(m)
    ensures Feed(p, [C0.ESC, CSI_INTRODUCER, m]).1 == []
    ensures Feed(p, [C0.ESC, CSI_INTRODUCER, m]).0 == Cleared(p).(state := CsiParam, intermediates := [m])
  {
    CsiIntroducer(p);
    var q := Feed(p, [C0.ESC, CSI_INTRODUCER]).0;
    PrivateMarkerRow(m);
    CollectOne(q, m);
    TableStep(q, m, CsiParam, Collect);
    assert [C0.ESC, CSI_INTRODUCER, m] == [C0.ESC, CSI_INTRODUCER] + [m];
    FeedAppend(p, [C0.ESC, CSI_INTRODUCER], [m]);
    FeedOne(q, m);
  }

  /** `ESC [ m s f`: one dispatch, with the reference parameters of `s` and the marker as intermediate. */
  lemma CsiMarkerFeed(p: PState, m: u8, s: seq<u8>, f: u8)
    requires p.Valid() && p.state == Ground && IsPrivateMarker(m) && ParamString(s) && IsFinal(f)
    ensures Feed(p, [C0.ESC, CSI_INTRODUCER, m] + s + [f]).1 ==
      [E.CsiDispatch(Reference(s).0, [m], Reference(s).1, ByteChar(f))]
    ensures Feed(p, [C0.ESC, CSI_INTRODUCER, m] + s + [f]).0.state == Ground
  {
    var intro: seq<u8> := [C0.ESC, CSI_INTRODUCER, m];
    CsiMarker(p, m);
    var q0 := Feed(p, intro).0;
    assert AccOf(q0) == START;
    FeedParamString(q0, s);
    var q1 := Feed(q0, s).0;
    assert q1.intermediates == [m] && InCsiParams(q1);
    assert AccOf(q1) == ParamsAfter(START, s);
    FeedAppend(p, intro + s, [f]);
    FeedAppend(p, intro, s);
    FeedOne(q1, f);
    FinalByteStep(q1, f);
    ParamsMatchReference(s);
    var call := E.CsiDispatch(Reference(s).0, [m], Reference(s).1, ByteChar(f));
    assert Feed(q1, [f]).1 == [call];
    assert Feed(p, intro + s).1 == [];
    assert Feed(p, intro + s + [f]).1 == [] + [call];
  }

  /** `ESC [ m s f` with a private marker `m`. */
  function CsiMarked(m: u8, s: seq<u8>, f: u8): (bytes: seq<u8>)
    ensures |bytes| == |s| + 4 && bytes[..3] == [C0.ESC, CSI_INTRODUCER, m] && bytes[|bytes| - 1] == f
  {
    [C0.ESC, CSI_INTRODUCER, m] + s + [f]
  }

  /** 7-bit input without NAK, on which `advance` is feeding, is closed under concatenation. */
  lemma SevenBitJoin(a: seq<u8>, b: seq<u8>)
    requires SevenBitWithoutNak(a) && SevenBitWithoutNak(b)
    ensures SevenBitWithoutNak(a + b)
  {
    assert forall i :: 0 <= i < |a + b| ==> (a + b)[i] == if i < |a| then a[i] else b[i - |a|];
  }

  lemma ParamStringSevenBit(s: seq<u8>)
    requires ParamString(s)
    ensures SevenBitWithoutNak(s)
  {
  }

  /** `ESC [ s` with any parameter string, interrupted by `ESC [ m s2 f`: only the second is dispatched. */
  lemma CsiInterruptedByCsi(p: PState, s: seq<u8>, m: u8, s2: seq<u8>, f: u8)
    requires p.Valid() && p.state == Ground && ParamString(s)
    requires IsPrivateMarker(m) && ParamString(s2) && IsFinal(f)
    ensures Advance(p, [C0.ESC, CSI_INTRODUCER] + s + CsiMarked(m, s2, f)).1 ==
      [E.CsiDispatch(Reference(s2).0, [m], Reference(s2).1, ByteChar(f))]
  {
    var t := CsiMarked(m, s2, f);
    var intro: seq<u8> := [C0.ESC, CSI_INTRODUCER];
    ParamStringSevenBit(s);
    ParamStringSevenBit(s2);
    SevenBitJoin(intro, s);
    SevenBitJoin([C0.ESC, CSI_INTRODUCER, m], s2);
    SevenBitJoin([C0.ESC, CSI_INTRODUCER, m] + s2, [f]);
    SevenBitJoin(intro + s, t);
    AdvanceIsFeed(p, intro + s + t);
    CsiInterrupted(p, s, t);
    CsiMarkerFeed(p, m, s2, f);
  }

  /** `ESC [ 3 ; 1` interrupted by `ESC [ ? 1049 h`: only the second sequence is dispatched. */
  lemma CsiReset()
    ensures Advance(INITIAL, Csi3_1() + CsiMarked(0x3F, [0x31, 0x30, 0x34, 0x39], 0x68)).1
      == [E.CsiDispatch([[1049]], [0x3F], false, 'h')]
  {
    Reference1049();
    CsiInterruptedByCsi(INITIAL, [0x33, 0x3B, 0x31], 0x3F, [0x31, 0x30, 0x34, 0x39], 0x68);
  }

  /** `1049` is the one parameter 1049. */
  lemma Reference1049()
    ensures ParamString([0x31, 0x30, 0x34, 0x39]) && Reference([0x31, 0x30, 0x34, 0x39]) == ([[1049]], false)
  {
    NumberSubparams([0x31, 0x30, 0x34, 0x39]);
    ReferenceOfField([0x31, 0x30, 0x34, 0x39]);
    assert SatDecimal([0x31, 0x30, 0x34, 0x39]) == 1049;
  }

  /** `ESC [ 3 ; 1`, a control sequence without its final byte. */
  function Csi3_1(): (bytes: seq<u8>)
    ensures bytes == [C0.ESC, CSI_INTRODUCER] + [0x33, 0x3B, 0x31] && ParamString([0x33, 0x3B, 0x31])
  {
    [C0.ESC, CSI_INTRODUCER, 0x33, 0x3B, 0x31]
  }

  // ---------------------------------------------------------------- ESC

  /** From a fresh Escape state, an intermediate and a final byte dispatch an escape sequence. */
  lemma EscIntermediateSteps(q: PState, i: u8, f: u8)
    requires q.Valid() && q.state == Escape && q.intermediates == [] && !q.ignoring
    requires IsIntermediate(i) && 0x30 <= f <= 0x7E
    ensures Feed(q, [i, f]).0 == q.(state := Ground, intermediates := [i])
    ensures Feed(q, [i, f]).1 == [E.EscDispatch([i], false, f)]
  {
    var q1 := q.(state := EscapeIntermediate, intermediates := [i]);
    EscapeIntermediateRow(i);
    CollectOne(q, i);
    assert [] + [i] == [i];
    TableStep(q, i, EscapeIntermediate, Collect);
    EscapeIntermediateRow(f);
    TableStep(q1, f, Ground, EscDispatch);
    FeedOne(q, i);
    FeedOne(q1, f);
    assert [i] + [f] == [i, f];
    FeedAppend(q, [i], [f]);
    E.EmptyEnds([], [], [E.EscDispatch([i], false, f)], []);
  }

  /** `ESC i f` from the ground state: one `esc_dispatch` with the intermediate `i`. */
  lemma EscIntermediateDispatch(p: PState, i: u8, f: u8)
    requires p.Valid() && p.state == Ground && IsIntermediate(i) && 0x30 <= f <= 0x7E
    ensures Feed(p, [C0.ESC, i, f]).1 == [E.EscDispatch([i], false, f)]
    ensures Feed(p, [C0.ESC, i, f]).0.state == Ground
  {
    EscapeCancels(p);
    var q := Cleared(p).(state := Escape);
    EscIntermediateSteps(q, i, f);
    assert [C0.ESC, i, f][1..] == [i, f];
  }

  /** `ESC [ s` with any parameter string, interrupted by `ESC i f`: only the escape sequence is dispatched. */
  lemma CsiInterruptedByEsc(p: PState, s: seq<u8>, i: u8, f: u8)
    requires p.Valid() && p.state == Ground && ParamString(s) && IsIntermediate(i) && 0x30 <= f <= 0x7E
    ensures Advance(p, [C0.ESC, CSI_INTRODUCER] + s + [C0.ESC, i, f]).1 == [E.EscDispatch([i], false, f)]
  {
    var intro: seq<u8> := [C0.ESC, CSI_INTRODUCER];
    ParamStringSevenBit(s);
    SevenBitJoin(intro, s);
    SevenBitJoin(intro + s, [C0.ESC, i, f]);
    AdvanceIsFeed(p, intro + s + [C0.ESC, i, f]);
    CsiInterrupted(p, s, [C0.ESC, i, f]);
    EscIntermediateDispatch(p, i, f);
  }

  /** `ESC [ 3 ; 1` interrupted by `ESC ( A`: only the escape sequence is dispatched. */
  lemma EscReset()
    ensures Advance(INITIAL, Csi3_1() + [C0.ESC, 0x28, 0x41]).1 == [E.EscDispatch([0x28], false, 0x41)]
  {
    CsiInterruptedByEsc(INITIAL, [0x33, 0x3B, 0x31], 0x28, 0x41);
  }

  // ---------------------------------------------------------------- DCS

  const ST: u8 := 0x9C

  /** Digits and `;`: the parameter bytes of a DCS header (a colon sends the string to DcsIgnore). */
  predicate DcsParamString(s: seq<u8>)
  {
    forall i :: 0 <= i < |s| ==> IsDigit(s[i]) || s[i] == PARAM_SEPARATOR
  }

  /** The bytes a DCS passthrough hands to `put`. */
  predicate DcsData(d: seq<u8>)
  {
    forall i :: 0 <= i < |d| ==> 0x20 <= d[i] <= 0x7E
  }

  predicate AllIntermediates(ims: seq<u8>)
  {
    forall i :: 0 <= i < |ims| ==> IsIntermediate(ims[i])
  }

  predicate InDcsParams(q: PState)
  {
    q.state == DcsEntry || q.state == DcsParam
  }

  predicate InDcsHeader(q: PState)
  {
    InDcsParams(q) || q.state == DcsIntermediate
  }

  /**
   * A DCS header: an optional private marker `m`, parameters `s`,
   * intermediates `ims` (at most two collected bytes in all) and a final byte.
   */
  predicate WellFormedHeader(m: seq<u8>, s: seq<u8>, ims: seq<u8>, f: u8)
  {
    |m| <= 1 && (|m| == 1 ==> IsPrivateMarker(m[0])) && DcsParamString(s)
    && AllIntermediates(ims) && |m| + |ims| <= MAX_INTERMEDIATES && IsFinal(f)
  }

  /** `ESC P m s ims f`. */
  function DcsHeader(m: seq<u8>, s: seq<u8>, ims: seq<u8>, f: u8): (bytes: seq<u8>)
    ensures |bytes| == |m| + |s| + |ims| + 3 && bytes[..2] == [C0.ESC, DCS_INTRODUCER] && bytes[|bytes| - 1] == f
  {
    [C0.ESC, DCS_INTRODUCER] + m + s + ims + [f]
  }

  /** Feeding `x` from `p` reaches `q`, calls nothing and never passes through the ground state. */
  ghost predicate Quiet(p: PState, x: seq<u8>, q: PState)
    requires p.Valid()
  {
    Feed(p, x).0 == q && Feed(p, x).1 == [] && Inside(p, x)
  }

  lemma QuietAppend(p: PState, x: seq<u8>, q: PState, y: seq<u8>, r: PState)
    requires p.Valid() && q.Valid() && Quiet(p, x, q) && Quiet(q, y, r)
    ensures Quiet(p, x + y, r)
  {
    FeedAppend(p, x, y);
    InsideAppend(p, x, y);
    E.EmptyEnds([], [], [], []);
  }

  lemma QuietOne(p: PState, b: u8, q: PState)
    requires p.Valid() && AdvanceSequence(p, b).0 == q && AdvanceSequence(p, b).1 == [] && q.state != Ground
    ensures Quiet(p, [b], q)
  {
    FeedOne(p, b);
    InsideOne(p, b);
  }

  lemma QuietEmpty(p: PState)
    requires p.Valid()
    ensures Quiet(p, [], p)
  {
  }

  /** `ESC P` from the ground state enters DcsEntry with cleared accumulators. */
  lemma DcsIntroducer(p: PState)
    requires p.Valid() && p.state == Ground
    ensures Quiet(p, [C0.ESC, DCS_INTRODUCER], Cleared(p).(state := DcsEntry))
  {
    EscapeCancels(p);
    var q := Cleared(p).(state := Escape);
    var r := Cleared(p).(state := DcsEntry);
    QuietOne(p, C0.ESC, q);
    assert Transition(Escape, DCS_INTRODUCER) == Some((DcsEntry, None));
    assert ExitAction(q, DCS_INTRODUCER) == (q, []);
    assert EntryAction(q.(state := DcsEntry), DCS_INTRODUCER) == (r, []);
    assert StateChange(q, DcsEntry, None, DCS_INTRODUCER).0 == r;
    assert StateChange(q, DcsEntry, None, DCS_INTRODUCER).1 == [];
    assert AdvanceSequence(q, DCS_INTRODUCER) == StateChange(q, DcsEntry, None, DCS_INTRODUCER);
    QuietOne(q, DCS_INTRODUCER, r);
    QuietAppend(p, [C0.ESC], q, [DCS_INTRODUCER], r);
    assert [C0.ESC] + [DCS_INTRODUCER] == [C0.ESC, DCS_INTRODUCER];
  }

  /** A private marker right after `ESC P` is collected and starts the parameters. */
  lemma DcsMarkerStep(q: PState, b: u8)
    requires q.Valid() && q.state == DcsEntry && |q.intermediates| < MAX_INTERMEDIATES && IsPrivateMarker(b)
    ensures Quiet(q, [b], q.(state := DcsParam, intermediates := q.intermediates + [b]))
  {
    PrivateMarkerRow(b);
    CollectOne(q, b);
    TableStep(q, b, DcsParam, Collect);
    QuietOne(q, b, q.(state := DcsParam, intermediates := q.intermediates + [b]));
  }

  /** The parser after `ESC P m`. */
  function DcsStart(p: PState, m: seq<u8>): (q: PState)
    ensures q.intermediates == m && q.params == EMPTY_PARAMS && q.subparam == 0 && !q.ignoring
    ensures q.state == if |m| == 0 then DcsEntry else DcsParam
  {
    Cleared(p).(state := if |m| == 0 then DcsEntry else DcsParam, intermediates := m)
  }

  lemma DcsPrefix(p: PState, m: seq<u8>)
    requires p.Valid() && p.state == Ground && |m| <= 1 && (|m| == 1 ==> IsPrivateMarker(m[0]))
    ensures Quiet(p, [C0.ESC, DCS_INTRODUCER] + m, DcsStart(p, m))
  {
    DcsIntroducer(p);
    var q := Cleared(p).(state := DcsEntry);
    if |m| == 0 {
      assert [C0.ESC, DCS_INTRODUCER] + m == [C0.ESC, DCS_INTRODUCER];
      assert DcsStart(p, m) == q;
    } else {
      DcsMarkerStep(q, m[0]);
      assert m == [m[0]];
      assert q.(state := DcsParam, intermediates := q.intermediates + [m[0]]) == DcsStart(p, m);
      QuietAppend(p, [C0.ESC, DCS_INTRODUCER], q, m, DcsStart(p, m));
    }
  }

  /** A DCS parameter byte runs `Param` and leaves the parser in DcsParam. */
  lemma DcsParamByteStep(q: PState, b: u8)
    requires q.Valid() && InDcsParams(q) && (IsDigit(b) || b == PARAM_SEPARATOR)
    ensures AdvanceSequence(q, b).1 == []
    ensures AdvanceSequence(q, b).0 == WithAcc(q, ParamByte(q.params, q.subparam, q.ignoring, b)).(state := DcsParam)
  {
    DcsParamRow(b);
    if q.state == DcsEntry {
      TableStep(q, b, DcsParam, Action.Param);
    } else {
      AnywhereStep(q, b, Action.Param);
    }
  }

  /** DCS parameters move the accumulator as `ParamsAfter` says and call nothing. */
  lemma {:induction false} FeedDcsParamString(q: PState, s: seq<u8>)
    requires q.Valid() && InDcsParams(q) && DcsParamString(s)
    ensures Feed(q, s).1 == []
    ensures Feed(q, s).0 == WithAcc(q, ParamsAfter(AccOf(q), s)).(state := if |s| == 0 then q.state else DcsParam)
    decreases |s|
  {
    if |s| > 0 {
      DcsParamByteStep(q, s[0]);
      var q1 := AdvanceSequence(q, s[0]).0;
      assert DcsParamString(s[1..]);
      FeedDcsParamString(q1, s[1..]);
      assert AccOf(q1) == ParamByte(q.params, q.subparam, q.ignoring, s[0]);
      assert ParamsAfter(AccOf(q), s) == ParamsAfter(AccOf(q1), s[1..]);
      assert Feed(q, s).1 == [] + Feed(q1, s[1..]).1;
    }
  }

  lemma DcsParams(q: PState, s: seq<u8>)
    requires q.Valid() && InDcsParams(q) && DcsParamString(s)
    ensures Quiet(q, s, WithAcc(q, ParamsAfter(AccOf(q), s)).(state := if |s| == 0 then q.state else DcsParam))
  {
    FeedDcsParamString(q, s);
    DcsParamsInside(q, s);
  }

  lemma DcsParamsInside(q: PState, s: seq<u8>)
    requires q.Valid() && InDcsParams(q) && DcsParamString(s)
    ensures Inside(q, s)
  {
    forall k | 1 <= k <= |s|
      ensures Feed(q, s[..k]).0.state != Ground
    {
      assert DcsParamString(s[..k]);
      FeedDcsParamString(q, s[..k]);
    }
  }

  /** An intermediate byte in a DCS header is collected and leaves the parser in DcsIntermediate. */
  lemma DcsCollectStep(q: PState, b: u8)
    requires q.Valid() && InDcsHeader(q) && |q.intermediates| < MAX_INTERMEDIATES && IsIntermediate(b)
    ensures AdvanceSequence(q, b).1 == []
    ensures AdvanceSequence(q, b).0 == q.(state := DcsIntermediate, intermediates := q.intermediates + [b])
  {
    DcsHeaderRow(b);
    CollectOne(q, b);
    if q.state == DcsIntermediate {
      AnywhereStep(q, b, Collect);
    } else {
      TableStep(q, b, DcsIntermediate, Collect);
    }
  }

  lemma {:induction false} FeedDcsIntermediates(q: PState, ims: seq<u8>)
    requires q.Valid() && InDcsHeader(q) && AllIntermediates(ims) && |q.intermediates| + |ims| <= MAX_INTERMEDIATES
    ensures Feed(q, ims).1 == []
    ensures Feed(q, ims).0 ==
      q.(state := if |ims| == 0 then q.state else DcsIntermediate, intermediates := q.intermediates + ims)
    decreases |ims|
  {
    if |ims| == 0 {
      assert q.intermediates + ims == q.intermediates;
    } else {
      DcsCollectStep(q, ims[0]);
      var q1 := AdvanceSequence(q, ims[0]).0;
      FeedDcsIntermediates(q1, ims[1..]);
      assert q1.intermediates + ims[1..] == q.intermediates + ims;
      assert Feed(q, ims).1 == [] + Feed(q1, ims[1..]).1;
    }
  }

  lemma DcsIntermediates(q: PState, ims: seq<u8>)
    requires q.Valid() && InDcsHeader(q) && AllIntermediates(ims) && |q.intermediates| + |ims| <= MAX_INTERMEDIATES
    ensures Quiet(q, ims, q.(state := if |ims| == 0 then q.state else DcsIntermediate, intermediates := q.intermediates + ims))
  {
    FeedDcsIntermediates(q, ims);
    forall k | 1 <= k <= |ims|
      ensures Feed(q, ims[..k]).0.state != Ground
    {
      FeedDcsIntermediates(q, ims[..k]);
    }
  }

  /** A final byte enters the passthrough, whose entry action `hook`s with the closed parameters. */
  lemma HookStep(q: PState, f: u8)
    requires q.Valid() && InDcsHeader(q) && IsFinal(f)
    ensures var fp := FinishParams(q.params, q.subparam, q.ignoring);
      AdvanceSequence(q, f).0 == q.(state := DcsPassthrough, params := fp.0, ignoring := fp.1)
      && AdvanceSequence(q, f).1 == [E.Hook(fp.0.done, q.intermediates, fp.1, ByteChar(f))]
  {
    DcsHeaderRow(f);
    var fp := FinishParams(q.params, q.subparam, q.ignoring);
    var r := q.(state := DcsPassthrough, params := fp.0, ignoring := fp.1);
    var hook := E.Hook(fp.0.done, q.intermediates, fp.1, ByteChar(f));
    assert ExitAction(q, f) == (q, []);
    assert EntryAction(q.(state := DcsPassthrough), f) == (r, [hook]);
    assert StateChange(q, DcsPassthrough, None, f).0 == r;
    assert StateChange(q, DcsPassthrough, None, f).1 == [] + [] + [hook];
    assert AdvanceSequence(q, f) == StateChange(q, DcsPassthrough, None, f);
  }

  /** The parser just before the final byte of a DCS header. */
  lemma BeforeFinal(p: PState, m: seq<u8>, s: seq<u8>, ims: seq<u8>, f: u8) returns (q: PState)
    requires p.Valid() && p.state == Ground && WellFormedHeader(m, s, ims, f)
    ensures q.Valid() && Quiet(p, [C0.ESC, DCS_INTRODUCER] + m + s + ims, q)
    ensures InDcsHeader(q) && q.intermediates == m + ims && AccOf(q) == ParamsAfter(START, s)
  {
    DcsPrefix(p, m);
    var q0 := DcsStart(p, m);
    assert AccOf(q0) == START;
    DcsParams(q0, s);
    var q1 := WithAcc(q0, ParamsAfter(START, s)).(state := if |s| == 0 then q0.state else DcsParam);
    QuietAppend(p, [C0.ESC, DCS_INTRODUCER] + m, q0, s, q1);
    DcsIntermediates(q1, ims);
    q := q1.(state := if |ims| == 0 then q1.state else DcsIntermediate, intermediates := q1.intermediates + ims);
    QuietAppend(p, [C0.ESC, DCS_INTRODUCER] + m + s, q1, ims, q);
  }

  /**
   * A DCS header `ESC P m s ims f` makes one `hook` call: with the ECMA-48
   * reading of `s`, the marker and intermediates collected, the reference's
   * `ignore` flag and `f`; the parser is then in the passthrough and never
   * passed through the ground state.
   */
  lemma DcsHookReference(p: PState, m: seq<u8>, s: seq<u8>, ims: seq<u8>, f: u8)
    requires p.Valid() && p.state == Ground && WellFormedHeader(m, s, ims, f)
    ensures Feed(p, DcsHeader(m, s, ims, f)).1 == [E.Hook(Reference(s).0, m + ims, Reference(s).1, ByteChar(f))]
    ensures Feed(p, DcsHeader(m, s, ims, f)).0.state == DcsPassthrough
    ensures Inside(p, DcsHeader(m, s, ims, f))
  {
    var pre := [C0.ESC, DCS_INTRODUCER] + m + s + ims;
    var q := BeforeFinal(p, m, s, ims, f);
    HookStep(q, f);
    assert ParamString(s);
    ParamsMatchReference(s);
    FeedOne(q, f);
    InsideOne(q, f);
    FeedAppend(p, pre, [f]);
    InsideAppend(p, pre, [f]);
    E.EmptyEnds([], [], Feed(q, [f]).1, []);
  }

  /** In the passthrough a data byte is handed to `put`. */
  lemma PutStep(q: PState, b: u8)
    requires q.Valid() && q.state == DcsPassthrough && 0x20 <= b <= 0x7E
    ensures AdvanceSequence(q, b) == (q, [E.Put(b)])
  {
    DcsPassthroughRow(b);
    AnywhereStep(q, b, Put);
  }

  /** DCS data: one `put` per byte, the parser staying in the passthrough. */
  lemma {:induction false} FeedData(q: PState, d: seq<u8>)
    requires q.Valid() && q.state == DcsPassthrough && DcsData(d)
    ensures Feed(q, d).0 == q && Feed(q, d).1 == E.Puts(d)
    decreases |d|
  {
    if |d| > 0 {
      PutStep(q, d[0]);
      assert DcsData(d[1..]);
      FeedData(q, d[1..]);
    }
  }

  lemma DataInside(q: PState, d: seq<u8>)
    requires q.Valid() && q.state == DcsPassthrough && DcsData(d)
    ensures Inside(q, d)
  {
    forall k | 1 <= k <= |d|
      ensures Feed(q, d[..k]).0.state != Ground
    {
      assert DcsData(d[..k]);
      FeedData(q, d[..k]);
    }
  }

  /** The string terminator ends the passthrough with `unhook`. */
  lemma UnhookStep(q: PState)
    requires q.Valid() && q.state == DcsPassthrough
    ensures AdvanceSequence(q, ST).0 == q.(state := Ground)
    ensures AdvanceSequence(q, ST).1 == [E.Unhook]
  {
    C1IntroducersFromAnywhere(q.state);
    assert ExitAction(q, ST) == (q, [E.Unhook]);
    assert EntryAction(q.(state := Ground), ST) == (q.(state := Ground), []);
    assert StateChange(q, Ground, None, ST).1 == [E.Unhook] + [] + [];
    assert [E.Unhook] + [] + [] == [E.Unhook];
    assert AdvanceSequence(q, ST) == StateChange(q, Ground, None, ST);
  }

  /** A DCS header and its data: the `hook`, then one `put` per byte, all inside the sequence. */
  lemma DcsBody(p: PState, m: seq<u8>, s: seq<u8>, ims: seq<u8>, f: u8, d: seq<u8>)
    requires p.Valid() && p.state == Ground && WellFormedHeader(m, s, ims, f) && DcsData(d)
    ensures Feed(p, DcsHeader(m, s, ims, f) + d).1 ==
      [E.Hook(Reference(s).0, m + ims, Reference(s).1, ByteChar(f))] + E.Puts(d)
    ensures Feed(p, DcsHeader(m, s, ims, f) + d).0.state == DcsPassthrough
    ensures Inside(p, DcsHeader(m, s, ims, f) + d)
  {
    var h := DcsHeader(m, s, ims, f);
    DcsHookReference(p, m, s, ims, f);
    var q := Feed(p, h).0;
    FeedData(q, d);
    DataInside(q, d);
    FeedAppend(p, h, d);
    InsideAppend(p, h, d);
  }

  /**
   * A whole DCS string `ESC P m s ims f d ST` from the ground state:
   * exactly the `hook` with the reference parameters, a `put` per data
   * byte and an `unhook`, and the parser is back in the ground state.
   */
  lemma DcsDispatchesReference(p: PState, m: seq<u8>, s: seq<u8>, ims: seq<u8>, f: u8, d: seq<u8>)
    requires p.Valid() && p.state == Ground && WellFormedHeader(m, s, ims, f) && DcsData(d)
    ensures Advance(p, DcsHeader(m, s, ims, f) + d + [ST]).1 ==
      [E.Hook(Reference(s).0, m + ims, Reference(s).1, ByteChar(f))] + E.Puts(d) + [E.Unhook]
    ensures Advance(p, DcsHeader(m, s, ims, f) + d + [ST]).0.state == Ground
    ensures Feed(p, DcsHeader(m, s, ims, f) + d + [ST]).1 == Advance(p, DcsHeader(m, s, ims, f) + d + [ST]).1
  {
    var body := DcsHeader(m, s, ims, f) + d;
    DcsBody(p, m, s, ims, f, d);
    var q := Feed(p, body).0;
    UnhookStep(q);
    FeedOne(q, ST);
    FeedAppend(p, body, [ST]);
    C0.AllCharacterization(C0.ESC);
    assert body[0] == C0.ESC;
    AdvanceInside(p, body, ST);
  }

  lemma HeaderSevenBit(m: seq<u8>, s: seq<u8>, ims: seq<u8>, f: u8)
    requires WellFormedHeader(m, s, ims, f)
    ensures SevenBitWithoutNak(DcsHeader(m, s, ims, f))
  {
    var h := DcsHeader(m, s, ims, f);
    forall i | 0 <= i < |h|
      ensures h[i] < 0x80 && h[i] != C0.NAK
    {
      if 2 <= i < 2 + |m| {
        assert h[i] == m[i - 2];
      } else if 2 + |m| <= i < 2 + |m| + |s| {
        assert h[i] == s[i - 2 - |m|];
      } else if 2 + |m| + |s| <= i < |h| - 1 {
        assert h[i] == ims[i - 2 - |m| - |s|];
      }
    }
  }

  /**
   * ESC interrupts a DCS string: the `hook`, a `put` per data byte, the
   * `unhook` of the exit action, and then the escape sequence `ESC i g`
   * with only its own intermediate.
   */
  lemma DcsInterruptedByEsc(p: PState, m: seq<u8>, s: seq<u8>, ims: seq<u8>, f: u8, d: seq<u8>, i: u8, g: u8)
    requires p.Valid() && p.state == Ground && WellFormedHeader(m, s, ims, f) && DcsData(d)
    requires IsIntermediate(i) && 0x30 <= g <= 0x7E
    ensures Advance(p, DcsHeader(m, s, ims, f) + d + [C0.ESC, i, g]).1 ==
      [E.Hook(Reference(s).0, m + ims, Reference(s).1, ByteChar(f))] + E.Puts(d)
        + [E.Unhook, E.EscDispatch([i], false, g)]
  {
    var body := DcsHeader(m, s, ims, f) + d;
    var bytes := body + [C0.ESC, i, g];
    HeaderSevenBit(m, s, ims, f);
    SevenBitJoin(DcsHeader(m, s, ims, f), d);
    SevenBitJoin(body, [C0.ESC, i, g]);
    AdvanceIsFeed(p, bytes);
    DcsBody(p, m, s, ims, f, d);
    var q := Feed(p, body).0;
    UnhookThenEsc(q, i, g);
    FeedAppend(p, body, [C0.ESC, i, g]);
    var hook := [E.Hook(Reference(s).0, m + ims, Reference(s).1, ByteChar(f))];
    E.CallsAssociative(hook, E.Puts(d), [E.Unhook, E.EscDispatch([i], false, g)]);
  }

  /** ESC `i` `g` in the passthrough: `unhook`, then the escape sequence with intermediate `i` alone. */
  lemma UnhookThenEsc(q: PState, i: u8, g: u8)
    requires q.Valid() && q.state == DcsPassthrough && IsIntermediate(i) && 0x30 <= g <= 0x7E
    ensures Feed(q, [C0.ESC, i, g]).1 == [E.Unhook, E.EscDispatch([i], false, g)]
    ensures Feed(q, [C0.ESC, i, g]).0.state == Ground
  {
    EscapeUnhooks(q);
    var e := Cleared(q).(state := Escape);
    EscIntermediateSteps(e, i, g);
    FeedOne(q, C0.ESC);
    assert [C0.ESC, i, g] == [C0.ESC] + [i, g];
    FeedAppend(q, [C0.ESC], [i, g]);
    assert [E.Unhook] + [E.EscDispatch([i], false, g)] == [E.Unhook, E.EscDispatch([i], false, g)];
  }

  /**
   * ESC interrupting a control sequence before a whole DCS string: only
   * the DCS string's calls are made.
   */
  lemma DcsAfterInterruptedCsi(p: PState, s0: seq<u8>, m: seq<u8>, s: seq<u8>, ims: seq<u8>, f: u8, d: seq<u8>)
    requires p.Valid() && p.state == Ground && ParamString(s0) && WellFormedHeader(m, s, ims, f) && DcsData(d)
    ensures Advance(p, [C0.ESC, CSI_INTRODUCER] + s0 + (DcsHeader(m, s, ims, f) + d) + [ST]).1 ==
      [E.Hook(Reference(s).0, m + ims, Reference(s).1, ByteChar(f))] + E.Puts(d) + [E.Unhook]
    ensures Feed(p, [C0.ESC, CSI_INTRODUCER] + s0 + (DcsHeader(m, s, ims, f) + d) + [ST]).1 ==
      Advance(p, [C0.ESC, CSI_INTRODUCER] + s0 + (DcsHeader(m, s, ims, f) + d) + [ST]).1
  {
    var t := DcsHeader(m, s, ims, f) + d;
    var u := [C0.ESC, CSI_INTRODUCER] + s0;
    DcsBody(p, m, s, ims, f, d);
    CsiInterrupted(p, s0, t);
    var q := Feed(p, t).0;
    UnhookStep(q);
    FeedOne(q, ST);
    FeedAppend(p, u + t, [ST]);
    C0.AllCharacterization(C0.ESC);
    assert (u + t)[0] == C0.ESC;
    AdvanceInside(p, u + t, ST);
  }

  // ---------------------------------------------------------------- DCS instances

  /** `0;1` are the parameters 0 and 1. */
  lemma ReferenceZeroOne()
    ensures DcsParamString([0x30, 0x3B, 0x31]) && Reference([0x30, 0x3B, 0x31]) == ([[0], [1]], false)
  {
    NumberSubparams([0x30]);
    NumberSubparams([0x31]);
    ReferenceOfField([0x31]);
    assert AllSubparams(Fields([0x31])) == [[1]];
    assert SatDecimal([0x30]) == 0 && SatDecimal([0x31]) == 1;
    ReferenceJoin([0x30], [0x31]);
    assert [0x30] + [PARAM_SEPARATOR] + [0x31] == [0x30, 0x3B, 0x31];
    assert Take([Subparams([0x30])] + AllSubparams(Fields([0x31])), MAX_PARAMS) == [[0], [1]];
  }

  /** DcsDispatchesReference with the hook's contents computed beforehand. */
  lemma DcsDispatchesAs(p: PState, m: seq<u8>, s: seq<u8>, ims: seq<u8>, f: u8, d: seq<u8>,
                        input: seq<u8>, hook: E.Call)
    requires p.Valid() && p.state == Ground && WellFormedHeader(m, s, ims, f) && DcsData(d)
    requires input == DcsHeader(m, s, ims, f) + d + [ST]
    requires hook == E.Hook(Reference(s).0, m + ims, Reference(s).1, ByteChar(f))
    ensures Advance(p, input).1 == [hook] + E.Puts(d) + [E.Unhook]
    ensures Feed(p, input).1 == Advance(p, input).1
  {
    DcsDispatchesReference(p, m, s, ims, f, d);
  }

  /** `ESC P 0;1 | 17/ab ST`, a DCS string with two parameters and five data bytes. */
  const DCS_PARSE: seq<u8> := [0x1B, 0x50, 0x30, 0x3B, 0x31, 0x7C, 0x31, 0x37, 0x2F, 0x61, 0x62, 0x9C]

  /** `ESC P 0;1 | 17/ab ST`: the hook with parameters 0 and 1, a put for each of `17/ab`, the unhook. */
  lemma DcsParse(p: PState)
    requires p.Valid() && p.state == Ground
    ensures Advance(p, DCS_PARSE).1 == [E.Hook([[0], [1]], [], false, '|'),
      E.Put(0x31), E.Put(0x37), E.Put(0x2F), E.Put(0x61), E.Put(0x62), E.Unhook]
    ensures Feed(p, DCS_PARSE).1 == Advance(p, DCS_PARSE).1
  {
    var s: seq<u8>, d: seq<u8> := [0x30, 0x3B, 0x31], [0x31, 0x37, 0x2F, 0x61, 0x62];
    var none: seq<u8> := [];
    var hook := E.Hook([[0], [1]], [], false, '|');
    ReferenceZeroOne();
    ParseShape();
    DcsDispatchesAs(p, none, s, none, 0x7C, d, DCS_PARSE, hook);
    ParseCalls(hook);
  }

  /** `DCS_PARSE` is a well-formed header with no marker and no intermediates, data and ST. */
  lemma ParseShape()
    ensures WellFormedHeader([], [0x30, 0x3B, 0x31], [], 0x7C) && DcsData([0x31, 0x37, 0x2F, 0x61, 0x62])
    ensures DCS_PARSE == DcsHeader([], [0x30, 0x3B, 0x31], [], 0x7C) + [0x31, 0x37, 0x2F, 0x61, 0x62] + [ST]
  {
    ReferenceZeroOne();
  }

  lemma ParseCalls(hook: E.Call)
    ensures [hook] + E.Puts([0x31, 0x37, 0x2F, 0x61, 0x62]) + [E.Unhook]
         == [hook, E.Put(0x31), E.Put(0x37), E.Put(0x2F), E.Put(0x61), E.Put(0x62), E.Unhook]
  {
  }

  /** `1` is the one parameter 1. */
  lemma ReferenceOne()
    ensures DcsParamString([0x31]) && Reference([0x31]) == ([[1]], false)
  {
    NumberSubparams([0x31]);
    ReferenceOfField([0x31]);
    assert SatDecimal([0x31]) == 1;
  }

  /** DcsAfterInterruptedCsi with the hook's contents computed beforehand. */
  lemma DcsAfterInterruptedCsiAs(p: PState, s0: seq<u8>, m: seq<u8>, s: seq<u8>, ims: seq<u8>, f: u8, d: seq<u8>,
                                 input: seq<u8>, hook: E.Call)
    requires p.Valid() && p.state == Ground && ParamString(s0) && WellFormedHeader(m, s, ims, f) && DcsData(d)
    requires input == [C0.ESC, CSI_INTRODUCER] + s0 + (DcsHeader(m, s, ims, f) + d) + [ST]
    requires hook == E.Hook(Reference(s).0, m + ims, Reference(s).1, ByteChar(f))
    ensures Advance(p, input).1 == [hook] + E.Puts(d) + [E.Unhook]
    ensures Feed(p, input).1 == Advance(p, input).1
  {
    DcsAfterInterruptedCsi(p, s0, m, s, ims, f, d);
  }

  /** `ESC [ 3 ; 1` interrupted by `ESC P 1 $ t x ST`. */
  const DCS_RESET: seq<u8> := [0x1B, 0x5B, 0x33, 0x3B, 0x31, 0x1B, 0x50, 0x31, 0x24, 0x74, 0x78, 0x9C]

  /** The unfinished CSI sequence is dropped: the hook with `$`, one put, the unhook. */
  lemma DcsReset(p: PState)
    requires p.Valid() && p.state == Ground
    ensures Advance(p, DCS_RESET).1 == [E.Hook([[1]], [0x24], false, 't'), E.Put(0x78), E.Unhook]
    ensures Feed(p, DCS_RESET).1 == Advance(p, DCS_RESET).1
  {
    var s: seq<u8>, ims: seq<u8>, d: seq<u8> := [0x31], [0x24], [0x78];
    var none: seq<u8> := [];
    var hook := E.Hook([[1]], [0x24], false, 't');
    ReferenceOne();
    DcsAfterInterruptedCsiAs(p, [0x33, 0x3B, 0x31], none, s, ims, 0x74, d, DCS_RESET, hook);
    ResetCalls(hook);
  }

  lemma ResetCalls(hook: E.Call)
    ensures [hook] + E.Puts([0x78]) + [E.Unhook] == [hook, E.Put(0x78), E.Unhook]
  {
  }

  /** DcsInterruptedByEsc with the hook's contents computed beforehand. */
  lemma DcsInterruptedByEscAs(p: PState, m: seq<u8>, s: seq<u8>, ims: seq<u8>, f: u8, d: seq<u8>, i: u8, g: u8,
                              input: seq<u8>, hook: E.Call)
    requires p.Valid() && p.state == Ground && WellFormedHeader(m, s, ims, f) && DcsData(d)
    requires IsIntermediate(i) && IsFinal(g)
    requires input == DcsHeader(m, s, ims, f) + d + [C0.ESC, i, g]
    requires hook == E.Hook(Reference(s).0, m + ims, Reference(s).1, ByteChar(f))
    ensures Advance(p, input).1 == [hook] + E.Puts(d) + [E.Unhook, E.EscDispatch([i], false, g)]
  {
    DcsInterruptedByEsc(p, m, s, ims, f, d, i, g);
  }

  /** `ESC P = 1 s ZZZ ESC + \`. */
  const DCS_EXIT: seq<u8> := [0x1B, 0x50, 0x3D, 0x31, 0x73, 0x5A, 0x5A, 0x5A, 0x1B, 0x2B, 0x5C]

  /** The hook with the marker, three puts, the unhook, and `ESC + \` with `+` as its only intermediate. */
  lemma IntermediateResetOnExit(p: PState)
    requires p.Valid() && p.state == Ground
    ensures Advance(p, DCS_EXIT).1 == [E.Hook([[1]], [0x3D], false, 's'),
      E.Put(0x5A), E.Put(0x5A), E.Put(0x5A), E.Unhook, E.EscDispatch([0x2B], false, 0x5C)]
  {
    var m: seq<u8>, s: seq<u8>, d: seq<u8> := [0x3D], [0x31], [0x5A, 0x5A, 0x5A];
    var none: seq<u8> := [];
    var hook := E.Hook([[1]], [0x3D], false, 's');
    ReferenceOne();
    DcsInterruptedByEscAs(p, m, s, none, 0x73, d, 0x2B, 0x5C, DCS_EXIT, hook);
    ExitCalls(hook);
  }

  lemma ExitCalls(hook: E.Call)
    ensures [hook] + E.Puts([0x5A, 0x5A, 0x5A]) + [E.Unhook, E.EscDispatch([0x2B], false, 0x5C)]
         == [hook, E.Put(0x5A), E.Put(0x5A), E.Put(0x5A), E.Unhook, E.EscDispatch([0x2B], false, 0x5C)]
  {
  }

  lemma {:induction false} OnesDcsParams(k: nat)
    ensures DcsParamString(Ones(k))
  {
    if k > 0 {
      OnesDcsParams(k - 1);
      assert Ones(k) == [0x31, PARAM_SEPARATOR] + Ones(k - 1);
    }
  }

  /** `ESC P` then `k` times `1;` then `p`: the hook keeps at most sixteen parameters, `ignore` once a seventeenth begins. */
  lemma OnesHook(k: nat)
    ensures Advance(INITIAL, DcsHeader([], Ones(k), [], 0x70)).1
      == [E.Hook(Take<seq<u16>>(Repeat<seq<u16>>(k, [1]) + [[0]], MAX_PARAMS), [], k >= MAX_PARAMS, 'p')]
  {
    var none: seq<u8> := [];
    OnesDcsParams(k);
    OnesReference(k);
    assert none + none == [];
    var hook := E.Hook(Take<seq<u16>>(Repeat<seq<u16>>(k, [1]) + [[0]], MAX_PARAMS), [], k >= MAX_PARAMS, 'p');
    HookAs(INITIAL, none, Ones(k), none, 0x70, hook);
  }

  /** DcsHookReference under Advance, with the hook's contents computed beforehand. */
  lemma HookAs(p: PState, m: seq<u8>, s: seq<u8>, ims: seq<u8>, f: u8, hook: E.Call)
    requires p.Valid() && p.state == Ground && WellFormedHeader(m, s, ims, f)
    requires hook == E.Hook(Reference(s).0, m + ims, Reference(s).1, ByteChar(f))
    ensures Advance(p, DcsHeader(m, s, ims, f)).1 == [hook]
  {
    HeaderSevenBit(m, s, ims, f);
    AdvanceIsFeed(p, DcsHeader(m, s, ims, f));
    DcsHookReference(p, m, s, ims, f);
  }

  /** Seventeen `1;` after `ESC P`: sixteen parameters of value 1 and `ignore`. */
  lemma DcsMaxParams()
    ensures Advance(INITIAL, DcsHeader([], Ones(MAX_PARAMS + 1), [], 0x70)).1
      == [E.Hook(Repeat<seq<u16>>(MAX_PARAMS, [1]), [], true, 'p')]
  {
    OnesHook(MAX_PARAMS + 1);
    assert Take<seq<u16>>(Repeat<seq<u16>>(MAX_PARAMS + 1, [1]) + [[0]], MAX_PARAMS) == Repeat<seq<u16>>(MAX_PARAMS, [1]);
  }
}
