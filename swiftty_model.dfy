/**
 * swiftty_vte's parser on values: the same state machine as saiga_vte's,
 * driven one byte per `advance` call, with swiftty's OSC handler (sixteen
 * entries, a raw buffer without a limit) and a lookup that panics on a
 * byte without a table entry. `Feed` is `None` where a byte would panic.
 *
 * The lemmas show that it makes exactly the calls saiga's byte-by-byte
 * feed makes while the OSC buffer stays below saiga's 1024-byte limit,
 * that a byte below 0xA0 never panics, and what an OSC string of any
 * length dispatches.
 */
module SwifttyModel {
  import opened Common
  import opened Table
  import opened VteParams
  import V = VteModel
  import SwifttyOsc
  import VteOsc
  import VteCsi
  import VteProperties
  import VteSequences
  import SwifttyParam
  import C0
  import E = Executor

  /** The observable state of swiftty's `Parser`. */
  datatype SState = SState(
    state: State,
    params: ParamsValue,
    subparam: u16,
    intermediates: seq<u8>,
    ignoring: bool,
    osc: SwifttyOsc.OscState)
  {
    ghost predicate Valid()
    {
      IsParserState(state) && params.Valid() && |intermediates| <= V.MAX_INTERMEDIATES && osc.Valid()
    }
  }

  /** `Parser::new`. */
  const INITIAL: SState := SState(Ground, EMPTY_PARAMS, 0, [], false, SwifttyOsc.DEFAULT)

  lemma InitialValid()
    ensures INITIAL.Valid() && INITIAL.state == Ground && INITIAL.osc.raw == []
  {
    SwifttyOsc.DefaultValid();
  }

  /** The table has an entry for `b` in `state`: `advance` does not panic. */
  predicate Known(state: State, b: u8)
  {
    Transition(state, b).Some?
  }

  /** `execute_action`. */
  function ExecuteAction(p: SState, a: Action, b: u8): (r: (SState, seq<E.Call>))
    requires p.Valid()
    ensures r.0.Valid() && r.0.state == p.state
    ensures |r.0.osc.raw| <= |p.osc.raw| + 1
    ensures a != OscPut ==> |r.0.osc.raw| <= |p.osc.raw|
  {
    match a
    case Print => (p, [E.Print(ByteChar(b))])
    case Put => (p, [E.Put(b)])
    case Execute => (p, [E.Execute(b)])
    case OscStart => (p.(osc := SwifttyOsc.Started(p.osc)), [])
    case OscPut => (p.(osc := SwifttyOsc.PutByte(p.osc, b)), [])
    case OscEnd =>
      var (o, call) := SwifttyOsc.Ended(p.osc, b);
      (p.(osc := o), [call])
    case Hook =>
      var (params, ignoring) := V.FinishParams(p.params, p.subparam, p.ignoring);
      (p.(params := params, ignoring := ignoring), [E.Hook(params.done, p.intermediates, ignoring, ByteChar(b))])
    case Unhook => (p, [E.Unhook])
    case Param =>
      var (params, subparam, ignoring) := V.ParamByte(p.params, p.subparam, p.ignoring, b);
      (p.(params := params, subparam := subparam, ignoring := ignoring), [])
    case CsiDispatch =>
      var (params, ignoring) := V.FinishParams(p.params, p.subparam, p.ignoring);
      (p.(params := params, ignoring := ignoring), [E.CsiDispatch(params.done, p.intermediates, ignoring, ByteChar(b))])
    case Collect =>
      var (intermediates, ignoring) := V.CollectByte(p.intermediates, p.ignoring, b);
      (p.(intermediates := intermediates, ignoring := ignoring), [])
    case EscDispatch => (p, [E.EscDispatch(p.intermediates, p.ignoring, b)])
    case Clear => (p.(subparam := 0, params := EMPTY_PARAMS, ignoring := false, intermediates := []), [])
    case Ignore => (p, [])
  }

  /** `execute_state_entry_action`. */
  function EntryAction(p: SState, b: u8): (r: (SState, seq<E.Call>))
    requires p.Valid()
    ensures r.0.Valid() && r.0.state == p.state
    ensures |r.0.osc.raw| <= |p.osc.raw|
  {
    match EntryActionOf(p.state)
    case Some(a) => ExecuteAction(p, a, b)
    case None => (p, [])
  }

  /** `execute_state_exit_action`. */
  function ExitAction(p: SState, b: u8): (r: (SState, seq<E.Call>))
    requires p.Valid()
    ensures r.0.Valid() && r.0.state == p.state
    ensures r.0.osc.raw == p.osc.raw
  {
    match ExitActionOf(p.state)
    case Some(a) => ExecuteAction(p, a, b)
    case None => (p, [])
  }

  /**
   * `state_change`: a target of Anywhere with an action runs only the
   * action; otherwise the exit action, the action, the assignment of the
   * target and its entry action. The table never yields Anywhere without
   * an action, which is the one case where the assignment would leave the
   * parser in the pseudo-state.
   */
  function StateChange(p: SState, target: State, action: Option<Action>, b: u8): (r: (SState, seq<E.Call>))
    requires p.Valid() && (IsParserState(target) || action.Some?)
    ensures r.0.Valid()
    ensures r.0.state == if target == Anywhere then p.state else target
    ensures |r.0.osc.raw| <= |p.osc.raw| + 1
  {
    if target == Anywhere && action.Some? then ExecuteAction(p, action.value, b)
    else
      var (p1, exitCalls) := ExitAction(p, b);
      var (p2, actionCalls) := if action.Some? then ExecuteAction(p1, action.value, b) else (p1, []);
      var (p3, entryCalls) := EntryAction(p2.(state := target), b);
      (p3, exitCalls + actionCalls + entryCalls)
  }

  /** `advance` is the state change of the byte's table entry. */
  lemma AdvanceIsChange(p: SState, b: u8, target: State, action: Option<Action>)
    requires p.Valid() && Transition(p.state, b) == Some((target, action))
    requires IsParserState(target) || action.Some?
    ensures Known(p.state, b) && Advance(p, b) == StateChange(p, target, action, b)
  {
  }

  /** A state change to a real state without an action: the exit action, then the entry action. */
  lemma ChangeWithoutAction(p: SState, target: State, b: u8)
    requires p.Valid() && IsParserState(target)
    ensures StateChange(p, target, None, b).0 == EntryAction(ExitAction(p, b).0.(state := target), b).0
    ensures StateChange(p, target, None, b).1 == ExitAction(p, b).1 + EntryAction(ExitAction(p, b).0.(state := target), b).1
  {
    AppendEmpty(ExitAction(p, b).1);
  }

  /** `advance` of one byte that has a table entry. */
  function Advance(p: SState, b: u8): (r: (SState, seq<E.Call>))
    requires p.Valid() && Known(p.state, b)
    ensures r.0.Valid()
    ensures |r.0.osc.raw| <= |p.osc.raw| + 1
  {
    var (target, action) := Transition(p.state, b).value;
    TargetIsParserStateOrCarriesAction(p.state, b, target, action);
    StateChange(p, target, action, b)
  }

  /**
   * `advance` of every byte of `bytes`, in order, and the calls made; `None`
   * when one of them has no table entry, where `advance` panics.
   */
  function Feed(p: SState, bytes: seq<u8>): (r: Option<(SState, seq<E.Call>)>)
    requires p.Valid()
    ensures r.Some? ==> r.value.0.Valid() && |r.value.0.osc.raw| <= |p.osc.raw| + |bytes|
    decreases |bytes|
  {
    if |bytes| == 0 then Some((p, []))
    else if !Known(p.state, bytes[0]) then None
    else
      var (p1, c1) := Advance(p, bytes[0]);
      match Feed(p1, bytes[1..])
      case None => None
      case Some((p2, c2)) => Some((p2, c1 + c2))
  }

  /** saiga's `in_escape_sequence`, which the swiftty parser calls. */
  predicate InEscapeSequence(p: SState)
  {
    p.state != Ground
  }

  // ---------------------------------------------------------------------
  // No panic below 0xA0.

  /** A byte below 0xA0 has an entry in every state; a higher one only inside an OSC string. */
  lemma KnownIff(s: State, b: u8)
    requires IsParserState(s)
    ensures Known(s, b) <==> (b < 0xA0 || s == OscString)
  {
    TransitionDefinedIff(s, b);
  }

  /** Feeding bytes that are all below 0xA0 never panics. */
  lemma {:induction false} NoPanicBelowA0(p: SState, bytes: seq<u8>)
    requires p.Valid() && forall i :: 0 <= i < |bytes| ==> bytes[i] < 0xA0
    ensures Feed(p, bytes).Some?
    decreases |bytes|
  {
    if |bytes| > 0 {
      KnownIff(p.state, bytes[0]);
      var p1 := Advance(p, bytes[0]).0;
      NoPanicBelowA0(p1, bytes[1..]);
    }
  }

  /** A byte from 0xA0 up outside an OSC string panics. */
  lemma PanicsOutsideOsc(p: SState, b: u8, rest: seq<u8>)
    requires p.Valid() && p.state != OscString && b >= 0xA0
    ensures Feed(p, [b] + rest).None?
  {
    KnownIff(p.state, b);
    assert ([b] + rest)[0] == b;
  }

  // ---------------------------------------------------------------------
  // Agreement with saiga's parser.

  /** The two parsers' states agree: same fields, and saiga's OSC value is swiftty's entries in use. */
  ghost predicate Related(sw: SState, sa: V.PState)
    requires sw.Valid()
  {
    sw.state == sa.state && sw.params == sa.params && sw.subparam == sa.subparam
    && sw.intermediates == sa.intermediates && sw.ignoring == sa.ignoring
    && sa.osc == V.OscValue(sw.osc.Spans(), sw.osc.raw)
  }

  lemma InitialRelated()
    ensures INITIAL.Valid() && Related(INITIAL, V.INITIAL)
  {
    InitialValid();
  }

  /** Closing a parameter is the same on both handlers. */
  lemma ClosedAgrees(o: SwifttyOsc.OscState, v: V.OscValue)
    requires o.Valid() && v.Valid() && v == V.OscValue(o.Spans(), o.raw)
    ensures V.CloseOscParam(v) == V.OscValue(SwifttyOsc.Closed(o).Spans(), SwifttyOsc.Closed(o).raw)
    ensures V.OscSlices(V.CloseOscParam(v)) == SwifttyOsc.Slices(SwifttyOsc.Closed(o))
  {
  }

  /** One action agrees while saiga's raw buffer has room for the byte. */
  lemma ExecuteAgrees(sw: SState, sa: V.PState, a: Action, b: u8)
    requires sw.Valid() && sa.Valid() && Related(sw, sa) && |sw.osc.raw| < V.MAX_OSC_RAW
    ensures Related(ExecuteAction(sw, a, b).0, V.ExecuteAction(sa, a, b).0)
    ensures ExecuteAction(sw, a, b).1 == V.ExecuteAction(sa, a, b).1
  {
    match a
    case OscEnd => ClosedAgrees(sw.osc, sa.osc);
    case OscPut =>
      if b == SwifttyOsc.SEPARATOR {
        ClosedAgrees(sw.osc, sa.osc);
      }
    case _ =>
  }

  lemma EntryAgrees(sw: SState, sa: V.PState, b: u8)
    requires sw.Valid() && sa.Valid() && Related(sw, sa) && |sw.osc.raw| < V.MAX_OSC_RAW
    ensures Related(EntryAction(sw, b).0, V.EntryAction(sa, b).0)
    ensures EntryAction(sw, b).1 == V.EntryAction(sa, b).1
  {
    match sw.state
    case CsiEntry => ExecuteAgrees(sw, sa, Clear, b);
    case DcsEntry => ExecuteAgrees(sw, sa, Clear, b);
    case Escape => ExecuteAgrees(sw, sa, Clear, b);
    case OscString => ExecuteAgrees(sw, sa, OscStart, b);
    case DcsPassthrough => ExecuteAgrees(sw, sa, Hook, b);
    case _ =>
  }

  lemma ExitAgrees(sw: SState, sa: V.PState, b: u8)
    requires sw.Valid() && sa.Valid() && Related(sw, sa) && |sw.osc.raw| < V.MAX_OSC_RAW
    ensures Related(ExitAction(sw, b).0, V.ExitAction(sa, b).0)
    ensures ExitAction(sw, b).1 == V.ExitAction(sa, b).1
  {
    match sw.state
    case DcsPassthrough => ExecuteAgrees(sw, sa, Unhook, b);
    case OscString => ExecuteAgrees(sw, sa, OscEnd, b);
    case _ =>
  }

  /** One byte with a table entry agrees with saiga's `advance_sequence`. */
  lemma AdvanceAgrees(sw: SState, sa: V.PState, b: u8)
    requires sw.Valid() && sa.Valid() && Related(sw, sa) && |sw.osc.raw| < V.MAX_OSC_RAW
    requires Known(sw.state, b)
    ensures Related(Advance(sw, b).0, V.AdvanceSequence(sa, b).0)
    ensures Advance(sw, b).1 == V.AdvanceSequence(sa, b).1
  {
    var entry := Transition(sw.state, b).value;
    TargetIsParserStateOrCarriesAction(sw.state, b, entry.0, entry.1);
    AdvanceIsChange(sw, b, entry.0, entry.1);
    assert V.AdvanceSequence(sa, b) == V.StateChange(sa, entry.0, entry.1, b);
    if entry.0 == Anywhere {
      ExecuteAgrees(sw, sa, entry.1.value, b);
    } else {
      if entry.1 == Some(OscPut) {
        PutIsInPlace(sw.state, b, entry.0);
      }
      TransitAgrees(sw, sa, entry.0, entry.1, b);
    }
  }

  /** A state change to a real state agrees: exit, action and entry each agree. */
  lemma TransitAgrees(sw: SState, sa: V.PState, target: State, action: Option<Action>, b: u8)
    requires sw.Valid() && sa.Valid() && Related(sw, sa) && |sw.osc.raw| < V.MAX_OSC_RAW
    requires IsParserState(target) && action != Some(OscPut)
    ensures Related(StateChange(sw, target, action, b).0, V.StateChange(sa, target, action, b).0)
    ensures StateChange(sw, target, action, b).1 == V.StateChange(sa, target, action, b).1
  {
    ExitAgrees(sw, sa, b);
    var sw1 := ExitAction(sw, b).0;
    var sa1 := V.ExitAction(sa, b).0;
    var sw2 := if action.Some? then ExecuteAction(sw1, action.value, b).0 else sw1;
    var sa2 := if action.Some? then V.ExecuteAction(sa1, action.value, b).0 else sa1;
    if action.Some? {
      ExecuteAgrees(sw1, sa1, action.value, b);
    }
    EntryAgrees(sw2.(state := target), sa2.(state := target), b);
  }

  /**
   * Where swiftty does not panic and its OSC buffer cannot outgrow 1024
   * bytes, it ends in a related state and makes exactly the calls saiga's
   * byte-by-byte feed makes.
   */
  lemma {:induction false} FeedAgrees(sw: SState, sa: V.PState, bytes: seq<u8>)
    requires sw.Valid() && sa.Valid() && Related(sw, sa) && |sw.osc.raw| + |bytes| <= V.MAX_OSC_RAW
    ensures Feed(sw, bytes).Some? ==> Related(Feed(sw, bytes).value.0, V.Feed(sa, bytes).0)
    ensures Feed(sw, bytes).Some? ==> Feed(sw, bytes).value.1 == V.Feed(sa, bytes).1
    decreases |bytes|
  {
    if |bytes| > 0 && Known(sw.state, bytes[0]) {
      AdvanceAgrees(sw, sa, bytes[0]);
      FeedAgrees(Advance(sw, bytes[0]).0, V.AdvanceSequence(sa, bytes[0]).0, bytes[1..]);
    }
  }

  /**
   * From a new parser, up to 1024 bytes all below 0xA0 never panic on
   * swiftty and make the calls saiga's byte-by-byte feed makes.
   */
  lemma FromInitial(bytes: seq<u8>)
    requires |bytes| <= V.MAX_OSC_RAW && forall i :: 0 <= i < |bytes| ==> bytes[i] < 0xA0
    ensures Feed(INITIAL, bytes).Some?
    ensures Feed(INITIAL, bytes).value.1 == V.Feed(V.INITIAL, bytes).1
    ensures Feed(INITIAL, bytes).value.0.state == V.Feed(V.INITIAL, bytes).0.state
  {
    InitialRelated();
    NoPanicBelowA0(INITIAL, bytes);
    FeedAgrees(INITIAL, V.INITIAL, bytes);
  }

  /** Feeding `a` and then `b` is feeding `a + b`; a panic in `b` is a panic in `a + b`. */
  lemma {:induction false} FeedAppend(p: SState, a: seq<u8>, b: seq<u8>)
    requires p.Valid() && Feed(p, a).Some?
    ensures Feed(p, a + b).Some? <==> Feed(Feed(p, a).value.0, b).Some?
    ensures Feed(p, a + b).Some? ==> Feed(p, a + b).value.0 == Feed(Feed(p, a).value.0, b).value.0
    ensures Feed(p, a + b).Some? ==> Feed(p, a + b).value.1 == Feed(p, a).value.1 + Feed(Feed(p, a).value.0, b).value.1
    decreases |a|
  {
    if |a| == 0 {
      assert a + b == b;
      assert Feed(p, a).value.0 == p && Feed(p, a).value.1 == [];
    } else {
      assert (a + b)[0] == a[0] && (a + b)[1..] == a[1..] + b;
      var (p1, c1) := Advance(p, a[0]);
      FeedAppend(p1, a[1..], b);
      var r1 := Feed(p1, a[1..]).value;
      assert Feed(p, a).value.0 == r1.0 && Feed(p, a).value.1 == c1 + r1.1;
      if Feed(p, a + b).Some? {
        var r2 := Feed(p1, a[1..] + b).value;
        assert Feed(p, a + b).value.1 == c1 + r2.1;
        E.CallsAssociative(c1, r1.1, Feed(r1.0, b).value.1);
      }
    }
  }

  // ---------------------------------------------------------------------
  // OSC strings: every byte is kept, whatever the length.

  /** The parser right after `ESC ]`. */
  function Opened(p: SState): (q: SState)
    requires p.Valid()
    ensures q.Valid() && q.state == OscString && q.osc == SwifttyOsc.Started(p.osc)
  {
    p.(state := OscString, params := EMPTY_PARAMS, subparam := 0, ignoring := false, intermediates := [],
       osc := SwifttyOsc.Started(p.osc))
  }

  /** One byte with an entry, then the rest: the calls of the byte come first. */
  lemma FeedStep(p: SState, b: u8, rest: seq<u8>)
    requires p.Valid() && Known(p.state, b) && Feed(Advance(p, b).0, rest).Some?
    ensures Feed(p, [b] + rest).Some?
    ensures Feed(p, [b] + rest).value.0 == Feed(Advance(p, b).0, rest).value.0
    ensures Feed(p, [b] + rest).value.1 == Advance(p, b).1 + Feed(Advance(p, b).0, rest).value.1
  {
    assert ([b] + rest)[0] == b && ([b] + rest)[1..] == rest;
  }

  /** ESC from the ground state enters Escape and clears the accumulators, calling nothing. */
  lemma GroundEscStep(p: SState)
    requires p.Valid() && p.state == Ground
    ensures Known(p.state, C0.ESC)
    ensures Advance(p, C0.ESC).0 == p.(state := Escape, params := EMPTY_PARAMS, subparam := 0, ignoring := false, intermediates := [])
    ensures Advance(p, C0.ESC).1 == []
  {
    EscapeCancelSubFromAnywhere(Ground);
    AdvanceIsChange(p, C0.ESC, Escape, None);
    ChangeWithoutAction(p, Escape, C0.ESC);
    var q := p.(state := Escape, params := EMPTY_PARAMS, subparam := 0, ignoring := false, intermediates := []);
    assert ExitAction(p, C0.ESC) == (p, []);
    assert EntryAction(p.(state := Escape), C0.ESC) == (q, []);
  }

  /** `]` after ESC enters OscString and runs `start`, calling nothing. */
  lemma OscBracketStep(q: SState)
    requires q.Valid() && q.state == Escape
    ensures Known(q.state, 0x5D)
    ensures Advance(q, 0x5D).0 == q.(state := OscString, osc := SwifttyOsc.Started(q.osc))
    ensures Advance(q, 0x5D).1 == []
  {
    assert Transition(Escape, 0x5D) == Some((OscString, None));
    AdvanceIsChange(q, 0x5D, OscString, None);
    ChangeWithoutAction(q, OscString, 0x5D);
    assert ExitAction(q, 0x5D) == (q, []);
  }

  /** `ESC ]` from the ground state enters OscString, runs `start` and calls nothing. */
  lemma OscIntroducer(p: SState)
    requires p.Valid() && p.state == Ground
    ensures Feed(p, VteOsc.OSC).Some?
    ensures Feed(p, VteOsc.OSC).value.0 == Opened(p) && Feed(p, VteOsc.OSC).value.1 == []
  {
    GroundEscStep(p);
    var q := Advance(p, C0.ESC).0;
    OscBracketStep(q);
    SingleFeed(q, 0x5D);
    FeedStep(p, C0.ESC, [0x5D]);
    assert VteOsc.OSC == [C0.ESC] + [0x5D];
  }

  /** Feeding one byte with an entry is its `advance`. */
  lemma SingleFeed(p: SState, b: u8)
    requires p.Valid() && Known(p.state, b)
    ensures Feed(p, [b]) == Some(Advance(p, b))
  {
    var r := Advance(p, b);
    assert [b][1..] == [];
    assert Feed(r.0, []) == Some((r.0, []));
    AppendEmpty(r.1);
  }

  /** The body of an OSC string runs `put` on every byte and calls nothing. */
  lemma {:induction false} FeedOscBody(q: SState, s: seq<u8>)
    requires q.Valid() && q.state == OscString && VteOsc.OscBody(s)
    ensures Feed(q, s).Some?
    ensures Feed(q, s).value.0 == q.(osc := SwifttyOsc.PutAll(q.osc, s)) && Feed(q, s).value.1 == []
    decreases |s|
  {
    if |s| > 0 {
      OscStringRow(s[0]);
      var q1 := q.(osc := SwifttyOsc.PutByte(q.osc, s[0]));
      assert Known(q.state, s[0]);
      assert Advance(q, s[0]) == StateChange(q, Anywhere, Some(OscPut), s[0]);
      assert Advance(q, s[0]).0 == q1 && Advance(q, s[0]).1 == [];
      FeedOscBody(q1, s[1..]);
      assert Feed(q, s).value.1 == [] + Feed(q1, s[1..]).value.1;
    }
  }

  /** BEL and ST end the string with `end` and return to the ground state. */
  lemma GroundTerminatorStep(q: SState, t: u8)
    requires q.Valid() && q.state == OscString && (t == V.BEL || t == VteOsc.ST)
    ensures Known(q.state, t)
    ensures Advance(q, t).0 == q.(state := Ground, osc := SwifttyOsc.Closed(q.osc))
    ensures Advance(q, t).1 == [SwifttyOsc.Ended(q.osc, t).1]
  {
    OscStringRow(t);
    C1IntroducersFromAnywhere(OscString);
    AdvanceIsChange(q, t, Ground, None);
    ChangeWithoutAction(q, Ground, t);
    var e := ExitAction(q, t);
    assert e.0 == q.(osc := SwifttyOsc.Closed(q.osc)) && e.1 == [SwifttyOsc.Ended(q.osc, t).1];
    assert EntryAction(e.0.(state := Ground), t) == (e.0.(state := Ground), []);
    AppendEmpty(e.1);
  }

  /** ESC ends the string with `end`, enters Escape and clears the accumulators. */
  lemma EscapeTerminatorStep(q: SState)
    requires q.Valid() && q.state == OscString
    ensures Known(q.state, C0.ESC)
    ensures Advance(q, C0.ESC).0.state == Escape
    ensures Advance(q, C0.ESC).1 == [SwifttyOsc.Ended(q.osc, C0.ESC).1]
  {
    EscapeCancelSubFromAnywhere(OscString);
    AdvanceIsChange(q, C0.ESC, Escape, None);
    ChangeWithoutAction(q, Escape, C0.ESC);
    var e := ExitAction(q, C0.ESC);
    assert e.1 == [SwifttyOsc.Ended(q.osc, C0.ESC).1];
    assert EntryAction(e.0.(state := Escape), C0.ESC).1 == [];
    AppendEmpty(e.1);
  }

  /** The terminator as the last byte fed: one call, the dispatch of `end`. */
  lemma TerminatorStep(q: SState, t: u8)
    requires q.Valid() && q.state == OscString && (t == V.BEL || t == VteOsc.ST || t == C0.ESC)
    ensures Feed(q, [t]).Some?
    ensures Feed(q, [t]).value.1 == [SwifttyOsc.Ended(q.osc, t).1]
    ensures Feed(q, [t]).value.0.state == if t == C0.ESC then Escape else Ground
  {
    if t == C0.ESC {
      EscapeTerminatorStep(q);
    } else {
      GroundTerminatorStep(q, t);
    }
    SingleFeed(q, t);
  }

  /** After `ESC ] s` the parser is in OscString with `put` run on every byte of `s`. */
  lemma OscOpened(p: SState, s: seq<u8>)
    requires p.Valid() && p.state == Ground && VteOsc.OscBody(s)
    ensures Feed(p, VteOsc.OSC + s).Some?
    ensures Feed(p, VteOsc.OSC + s).value.0 == Opened(p).(osc := SwifttyOsc.PutAll(Opened(p).osc, s))
    ensures Feed(p, VteOsc.OSC + s).value.1 == []
  {
    OscIntroducer(p);
    FeedOscBody(Opened(p), s);
    FeedAppend(p, VteOsc.OSC, s);
  }

  /**
   * `ESC ] s t`, with `t` one of BEL, ST and ESC, makes exactly one
   * `osc_dispatch` call: the first sixteen `;`-separated pieces of `s`,
   * each whole, however long, and `bell_terminated` exactly for BEL.
   */
  lemma OscDispatchesPieces(p: SState, s: seq<u8>, t: u8)
    requires p.Valid() && p.state == Ground && VteOsc.OscBody(s) && (t == V.BEL || t == VteOsc.ST || t == C0.ESC)
    ensures Feed(p, VteOsc.OSC + s + [t]).Some?
    ensures Feed(p, VteOsc.OSC + s + [t]).value.1
      == [E.OscDispatch(VteCsi.Take(VteOsc.Pieces(s), V.MAX_OSC_PARAMS), t == V.BEL)]
    ensures Feed(p, VteOsc.OSC + s + [t]).value.0.state == if t == C0.ESC then Escape else Ground
  {
    var head := VteOsc.OSC + s;
    OscOpened(p, s);
    var q := Feed(p, head).value.0;
    assert q.osc == SwifttyOsc.PutAll(SwifttyOsc.Started(p.osc), s);
    TerminatorStep(q, t);
    FeedAppend(p, head, [t]);
    assert Feed(p, head + [t]).value.1 == [] + [SwifttyOsc.Ended(q.osc, t).1];
    SwifttyOsc.EndIsReference(p.osc, s, t);
  }

  /** Unlike saiga's 1024-byte buffer, a parameter of any length is dispatched whole. */
  lemma WholeParameter(p: SState, s: seq<u8>)
    requires p.Valid() && p.state == Ground && VteOsc.OscBody(s) && VteOsc.NoSeparator(s)
    ensures Feed(p, VteOsc.OSC + s + [V.BEL]).Some?
    ensures Feed(p, VteOsc.OSC + s + [V.BEL]).value.1 == [E.OscDispatch([s], true)]
  {
    VteCsi.SplitNone(s, PARAM_SEPARATOR);
    OscDispatchesPieces(p, s, V.BEL);
  }

  /** Two separator-free parameters are the two pieces. */
  lemma TwoPieces(a: seq<u8>, b: seq<u8>)
    requires VteOsc.OscBody(a) && VteOsc.OscBody(b) && VteOsc.NoSeparator(a) && VteOsc.NoSeparator(b)
    ensures VteOsc.OscBody(a + [PARAM_SEPARATOR] + b)
    ensures VteCsi.Take(VteOsc.Pieces(a + [PARAM_SEPARATOR] + b), V.MAX_OSC_PARAMS) == [a, b]
  {
    VteOsc.BodyJoin(a, b);
    VteCsi.SplitJoin(a, b, PARAM_SEPARATOR);
    VteCsi.SplitNone(a, PARAM_SEPARATOR);
    VteCsi.SplitNone(b, PARAM_SEPARATOR);
  }

  /** The window title of swiftty's `parse` test, `jwilm@jwilm-desk: ~/code/alacritty`. */
  const TITLE: seq<u8> := [
    0x6A, 0x77, 0x69, 0x6C, 0x6D, 0x40, 0x6A, 0x77, 0x69, 0x6C, 0x6D, 0x2D, 0x64, 0x65, 0x73, 0x6B,
    0x3A, 0x20, 0x7E, 0x2F, 0x63, 0x6F, 0x64, 0x65, 0x2F, 0x61, 0x6C, 0x61, 0x63, 0x72, 0x69, 0x74,
    0x74, 0x79
  ]

  /** The input of the `parse` test: `ESC ] 2 ; title ST`. */
  const OSC_BYTES: seq<u8> := VteOsc.OSC + [0x32, PARAM_SEPARATOR] + TITLE + [VteOsc.ST]

  /** Test `parse`: two parameters, `2` and the title. */
  lemma OscParse()
    ensures Feed(INITIAL, OSC_BYTES).Some?
    ensures Feed(INITIAL, OSC_BYTES).value.1 == [E.OscDispatch([[0x32], TITLE], false)]
  {
    InitialValid();
    var a: seq<u8> := [0x32];
    assert VteOsc.OscBody(TITLE) && VteOsc.NoSeparator(TITLE);
    TwoPieces(a, TITLE);
    assert OSC_BYTES == VteOsc.OSC + (a + [PARAM_SEPARATOR] + TITLE) + [VteOsc.ST];
    OscDispatchesPieces(INITIAL, a + [PARAM_SEPARATOR] + TITLE, VteOsc.ST);
  }

  /** Test `parse_empty`: `ESC ] BEL` dispatches one empty parameter. */
  lemma OscParseEmpty()
    ensures Feed(INITIAL, [C0.ESC, 0x5D, V.BEL]).Some?
    ensures Feed(INITIAL, [C0.ESC, 0x5D, V.BEL]).value.1 == [E.OscDispatch([[]], true)]
  {
    InitialValid();
    var none: seq<u8> := [];
    VteCsi.SplitNone(none, PARAM_SEPARATOR);
    assert [C0.ESC, 0x5D, V.BEL] == VteOsc.OSC + none + [V.BEL];
    OscDispatchesPieces(INITIAL, none, V.BEL);
  }

  /** `k` separators ended by ESC: `k + 1` empty parameters, of which the first sixteen are dispatched. */
  lemma OscSeparators(p: SState, k: nat)
    requires p.Valid() && p.state == Ground
    ensures Feed(p, VteOsc.OSC + VteCsi.Repeat<u8>(k, PARAM_SEPARATOR) + [C0.ESC]).Some?
    ensures Feed(p, VteOsc.OSC + VteCsi.Repeat<u8>(k, PARAM_SEPARATOR) + [C0.ESC]).value.1
      == [E.OscDispatch(VteCsi.Take<seq<u8>>(VteCsi.Repeat<seq<u8>>(k + 1, []), V.MAX_OSC_PARAMS), false)]
  {
    var s := VteCsi.Repeat<u8>(k, PARAM_SEPARATOR);
    assert VteOsc.OscBody(s);
    VteCsi.SplitOfSeparators(k, PARAM_SEPARATOR);
    var none: seq<u8> := [];
    assert VteOsc.Pieces(s) == VteCsi.Repeat<seq<u8>>(k + 1, none);
    OscDispatchesPieces(p, s, C0.ESC);
  }

  /** Test `parse_max_params`: 33 separators ended by ESC dispatch sixteen empty parameters. */
  lemma OscMaxParams()
    ensures var input := VteOsc.OSC + VteCsi.Repeat<u8>(SwifttyParam.MAX_PARAMS + 1, PARAM_SEPARATOR) + [C0.ESC];
      Feed(INITIAL, input).Some?
      && Feed(INITIAL, input).value.1 == [E.OscDispatch(VteCsi.Repeat<seq<u8>>(V.MAX_OSC_PARAMS, []), false)]
  {
    InitialValid();
    OscSeparators(INITIAL, SwifttyParam.MAX_PARAMS + 1);
    VteOsc.TakeRepeat<seq<u8>>(SwifttyParam.MAX_PARAMS + 2, V.MAX_OSC_PARAMS, []);
  }

  /** `ESC ] 52 ; s`, `n` bytes `a` and BEL: the second parameter keeps all `n + 1` bytes. */
  lemma LongSecondParameter(p: SState, n: nat)
    requires p.Valid() && p.state == Ground
    ensures var input := VteOsc.OSC + [0x35, 0x32, PARAM_SEPARATOR, 0x73] + VteCsi.Repeat<u8>(n, 0x61) + [V.BEL];
      Feed(p, input).Some?
      && Feed(p, input).value.1 == [E.OscDispatch([[0x35, 0x32], [0x73] + VteCsi.Repeat<u8>(n, 0x61)], true)]
  {
    var a: seq<u8> := [0x35, 0x32];
    var b := [0x73] + VteCsi.Repeat<u8>(n, 0x61);
    LettersArePlain(n);
    TwoPieces(a, b);
    LongSecondInput(n);
    OscDispatchesPieces(p, a + [PARAM_SEPARATOR] + b, V.BEL);
  }

  /** `s` followed by `a`s is plain OSC body without a separator. */
  lemma LettersArePlain(n: nat)
    ensures VteOsc.OscBody([0x73] + VteCsi.Repeat<u8>(n, 0x61))
    ensures VteOsc.NoSeparator([0x73] + VteCsi.Repeat<u8>(n, 0x61))
  {
    var b := [0x73] + VteCsi.Repeat<u8>(n, 0x61);
    forall i | 0 <= i < |b| ensures b[i] == 0x73 || b[i] == 0x61 {
      if i > 0 {
        assert b[i] == VteCsi.Repeat<u8>(n, 0x61)[i - 1];
      }
    }
  }

  /** The input of `LongSecondParameter`, regrouped as introducer, body and terminator. */
  lemma LongSecondInput(n: nat)
    ensures VteOsc.OSC + [0x35, 0x32, PARAM_SEPARATOR, 0x73] + VteCsi.Repeat<u8>(n, 0x61) + [V.BEL]
      == VteOsc.OSC + ([0x35, 0x32] + [PARAM_SEPARATOR] + ([0x73] + VteCsi.Repeat<u8>(n, 0x61))) + [V.BEL]
  {
  }

  /** Test `exceed_max_buffer_size`: 116 bytes `a` give a second parameter of 117 bytes. */
  lemma OscExceedMaxBufferSize()
    ensures var input := VteOsc.OSC + [0x35, 0x32, PARAM_SEPARATOR, 0x73] + VteCsi.Repeat<u8>(V.MAX_OSC_PARAMS + 100, 0x61) + [V.BEL];
      Feed(INITIAL, input).Some?
      && Feed(INITIAL, input).value.1 == [E.OscDispatch([[0x35, 0x32], [0x73] + VteCsi.Repeat<u8>(V.MAX_OSC_PARAMS + 100, 0x61)], true)]
      && |[0x73] + VteCsi.Repeat<u8>(V.MAX_OSC_PARAMS + 100, 0x61)| == 117
  {
    InitialValid();
    LongSecondParameter(INITIAL, V.MAX_OSC_PARAMS + 100);
  }

  /** Test `bell_terminated`: `ESC ] 11;ff/00/ff BEL` is bell-terminated. */
  lemma OscBellTerminated()
    ensures var input := VteOsc.OSC + [0x31, 0x31, PARAM_SEPARATOR, 0x66, 0x66, 0x2F, 0x30, 0x30, 0x2F, 0x66, 0x66] + [V.BEL];
      Feed(INITIAL, input).Some?
      && Feed(INITIAL, input).value.1 == [E.OscDispatch([[0x31, 0x31], [0x66, 0x66, 0x2F, 0x30, 0x30, 0x2F, 0x66, 0x66]], true)]
  {
    InitialValid();
    var a: seq<u8> := [0x31, 0x31];
    var b: seq<u8> := [0x66, 0x66, 0x2F, 0x30, 0x30, 0x2F, 0x66, 0x66];
    assert [0x31, 0x31, PARAM_SEPARATOR, 0x66, 0x66, 0x2F, 0x30, 0x30, 0x2F, 0x66, 0x66] == a + [PARAM_SEPARATOR] + b;
    TwoPieces(a, b);
    OscDispatchesPieces(INITIAL, a + [PARAM_SEPARATOR] + b, V.BEL);
  }

  // ---------------------------------------------------------------------
  // The CSI, DCS and ESC tests, through the agreement with saiga.

  /** Seven-bit input without NAK from a new parser: swiftty makes the calls of saiga's `advance`. */
  lemma LikeSaigaAdvance(bytes: seq<u8>)
    requires |bytes| <= V.MAX_OSC_RAW && VteProperties.SevenBitWithoutNak(bytes)
    ensures Feed(INITIAL, bytes).Some?
    ensures Feed(INITIAL, bytes).value.1 == V.Advance(V.INITIAL, bytes).1
    ensures Feed(INITIAL, bytes).value.0.state == V.Advance(V.INITIAL, bytes).0.state
  {
    FromInitial(bytes);
    VteProperties.AdvanceIsFeed(V.INITIAL, bytes);
  }

  /** ESC from the ground state only clears: no call. */
  lemma EscFromGround(p: SState)
    requires p.Valid() && p.state == Ground
    ensures Feed(p, [C0.ESC]).Some? && Feed(p, [C0.ESC]).value.1 == []
  {
    GroundEscStep(p);
    var r := Advance(p, C0.ESC).0;
    assert Feed(r, []) == Some((r, []));
    FeedStep(p, C0.ESC, []);
    assert [C0.ESC] + [] == [C0.ESC];
  }

  /** Test `parse_params_trailing_semicolon`: `CSI 4 ; m` dispatches 4 and 0. */
  lemma CsiTrailingSemicolon()
    ensures Feed(INITIAL, VteCsi.Csi([0x34, 0x3B], 0x6D)).Some?
    ensures Feed(INITIAL, VteCsi.Csi([0x34, 0x3B], 0x6D)).value.1 == [E.CsiDispatch([[4], [0]], [], false, 'm')]
  {
    LikeSaigaAdvance(VteCsi.Csi([0x34, 0x3B], 0x6D));
    VteCsi.TrailingSeparatorDispatch();
  }

  /** Test `parse_params_leading_semicolon`: `CSI ; 4 m` dispatches 0 and 4. */
  lemma CsiLeadingSemicolon()
    ensures Feed(INITIAL, VteCsi.Csi([0x3B, 0x34], 0x6D)).Some?
    ensures Feed(INITIAL, VteCsi.Csi([0x3B, 0x34], 0x6D)).value.1 == [E.CsiDispatch([[0], [4]], [], false, 'm')]
  {
    LikeSaigaAdvance(VteCsi.Csi([0x3B, 0x34], 0x6D));
    VteCsi.LeadingSeparatorDispatch();
  }

  /** Test `parse_long_param`: `CSI 9223372036854775808 m` saturates to 65535. */
  lemma CsiLongParam()
    ensures Feed(INITIAL, VteCsi.Csi(VteCsi.LONG_PARAM, 0x6D)).Some?
    ensures Feed(INITIAL, VteCsi.Csi(VteCsi.LONG_PARAM, 0x6D)).value.1 == [E.CsiDispatch([[U16_MAX]], [], false, 'm')]
  {
    LikeSaigaAdvance(VteCsi.Csi(VteCsi.LONG_PARAM, 0x6D));
    VteCsi.LongParamDispatch();
  }

  /** Test `subparameters`: `CSI 38:2:255:0:255;1 m`. */
  lemma CsiSubparameters()
    ensures Feed(INITIAL, VteCsi.Csi(VteCsi.COLOUR + [PARAM_SEPARATOR, 0x31], 0x6D)).Some?
    ensures Feed(INITIAL, VteCsi.Csi(VteCsi.COLOUR + [PARAM_SEPARATOR, 0x31], 0x6D)).value.1
      == [E.CsiDispatch([[38, 2, 255, 0, 255], [1]], [], false, 'm')]
    ensures Feed(INITIAL, VteCsi.Csi(VteCsi.COLOUR + [PARAM_SEPARATOR, 0x31], 0x6D)).value.0.state == Ground
  {
    LikeSaigaAdvance(VteCsi.Csi(VteCsi.COLOUR + [PARAM_SEPARATOR, 0x31], 0x6D));
    VteCsi.SubparametersDispatch();
  }

  /** Test `reset` (CSI): `ESC [ 3 ; 1` interrupted by `ESC [ ? 1049 h`. */
  lemma CsiReset()
    ensures var input := VteSequences.Csi3_1() + VteSequences.CsiMarked(0x3F, [0x31, 0x30, 0x34, 0x39], 0x68);
      Feed(INITIAL, input).Some? && Feed(INITIAL, input).value.1 == [E.CsiDispatch([[1049]], [0x3F], false, 'h')]
  {
    LikeSaigaAdvance(VteSequences.Csi3_1() + VteSequences.CsiMarked(0x3F, [0x31, 0x30, 0x34, 0x39], 0x68));
    VteSequences.CsiReset();
  }

  /** The parameter string of `params_buffer_filled_with_subparam`: 32 colons, 16 semicolons. */
  function FillerParams(): (s: seq<u8>)
    ensures |s| == 48
  {
    VteCsi.Repeat<u8>(32, SUBPARAM_SEPARATOR) + VteCsi.Repeat<u8>(MAX_PARAMS, PARAM_SEPARATOR)
  }

  /**
   * Test `params_buffer_filled_with_subparam`, with its trailing ESC: 32
   * zero sub-parameters, fifteen zeros, `ignore` set.
   */
  lemma CsiParamsBufferFilled()
    ensures Feed(INITIAL, VteCsi.Csi(FillerParams(), 0x78) + [C0.ESC]).Some?
    ensures Feed(INITIAL, VteCsi.Csi(FillerParams(), 0x78) + [C0.ESC]).value.1
      == [E.CsiDispatch([VteCsi.Repeat<u16>(32, 0)] + VteCsi.Repeat<seq<u16>>(MAX_PARAMS - 1, [0]), [], true, 'x')]
  {
    var bytes := VteCsi.Csi(FillerParams(), 0x78);
    assert VteProperties.SevenBitWithoutNak(bytes) by {
      forall i | 0 <= i < |bytes| ensures bytes[i] < 0x80 && bytes[i] != C0.NAK {
        if 2 <= i < |bytes| - 1 {
          assert bytes[i] == FillerParams()[i - 2];
        }
      }
    }
    LikeSaigaAdvance(bytes);
    VteCsi.SubparamsFillBufferDispatch(32);
    VteCsi.FullSubparamBuffer();
    InitialValid();
    var q := Feed(INITIAL, bytes).value.0;
    EscFromGround(q);
    FeedAppend(INITIAL, bytes, [C0.ESC]);
  }

  /** Test `reset` (ESC): `ESC [ 3 ; 1` interrupted by `ESC ( A`. */
  lemma EscReset()
    ensures Feed(INITIAL, VteSequences.Csi3_1() + [C0.ESC, 0x28, 0x41]).Some?
    ensures Feed(INITIAL, VteSequences.Csi3_1() + [C0.ESC, 0x28, 0x41]).value.1 == [E.EscDispatch([0x28], false, 0x41)]
  {
    LikeSaigaAdvance(VteSequences.Csi3_1() + [C0.ESC, 0x28, 0x41]);
    VteSequences.EscReset();
  }

  /** Test `parse` (DCS): `ESC P 0;1 | 17/ab ST`. */
  lemma DcsParse()
    ensures Feed(INITIAL, VteSequences.DCS_PARSE).Some?
    ensures Feed(INITIAL, VteSequences.DCS_PARSE).value.1 == [E.Hook([[0], [1]], [], false, '|'),
      E.Put(0x31), E.Put(0x37), E.Put(0x2F), E.Put(0x61), E.Put(0x62), E.Unhook]
  {
    FromInitial(VteSequences.DCS_PARSE);
    VteSequences.DcsParse(V.INITIAL);
  }

  /** Test `reset` (DCS): `ESC [ 3 ; 1` interrupted by `ESC P 1 $ t x ST`. */
  lemma DcsReset()
    ensures Feed(INITIAL, VteSequences.DCS_RESET).Some?
    ensures Feed(INITIAL, VteSequences.DCS_RESET).value.1 == [E.Hook([[1]], [0x24], false, 't'), E.Put(0x78), E.Unhook]
  {
    FromInitial(VteSequences.DCS_RESET);
    VteSequences.DcsReset(V.INITIAL);
  }

  /** Test `intermediate_reset_on_exit`: `ESC P = 1 s ZZZ ESC + \`, the escape has only `+`. */
  lemma IntermediateResetOnExit()
    ensures Feed(INITIAL, VteSequences.DCS_EXIT).Some?
    ensures Feed(INITIAL, VteSequences.DCS_EXIT).value.1 == [E.Hook([[1]], [0x3D], false, 's'),
      E.Put(0x5A), E.Put(0x5A), E.Put(0x5A), E.Unhook, E.EscDispatch([0x2B], false, 0x5C)]
  {
    LikeSaigaAdvance(VteSequences.DCS_EXIT);
    VteSequences.IntermediateResetOnExit(V.INITIAL);
  }
}
