/**
 * saiga_vte's `ansi::Processor`: the parser's executor calls turned into
 * terminal-handler calls. Of the executor calls only `execute` is
 * implemented: HT, BS, BEL and LF/VT/FF each make one handler call and
 * every other byte is only logged. The other executor calls are `todo!()`
 * and panic, which the model records as None.
 */
module AnsiProcessor {
  import opened Common
  import opened Table
  import C0
  import V = VteModel
  import VteProperties
  import E = Executor

  /** The handler methods `execute` calls. */
  datatype HandlerCall = PutTab | Backspace | RingBell | Linefeed

  /**
   * `HandlerExecutor::execute`: the handler call for a byte, if any. The
   * bytes handled are exactly BEL through FF, all of them C0 controls.
   */
  function Execute(b: u8): (r: Option<HandlerCall>)
    ensures r.Some? <==> C0.BEL <= b <= C0.FF
    ensures r == Some(Linefeed) <==> C0.LF <= b <= C0.FF
    ensures r.Some? ==> C0.InC0Set(b)
  {
    C0.AllCharacterization(b);
    if b == C0.HT then Some(PutTab)
    else if b == C0.BS then Some(Backspace)
    else if b == C0.BEL then Some(RingBell)
    else if b == C0.LF || b == C0.VT || b == C0.FF then Some(Linefeed)
    else None
  }

  /** The handler calls a run of executed bytes makes, in order; unhandled bytes make none. */
  function Handled(bytes: seq<u8>): (r: seq<HandlerCall>)
    ensures |r| <= |bytes|
    ensures (forall i :: 0 <= i < |bytes| ==> C0.BEL <= bytes[i] <= C0.FF) ==> |r| == |bytes|
  {
    if |bytes| == 0 then []
    else
      var rest := Handled(bytes[1..]);
      assert forall i :: 1 <= i < |bytes| ==> bytes[1..][i - 1] == bytes[i];
      match Execute(bytes[0])
      case Some(h) => [h] + rest
      case None => rest
  }

  /**
   * The handler calls made for a run of executor calls: `execute` through
   * `Execute`, and None as soon as a `todo!()` call (any other) appears.
   */
  function Forward(calls: seq<E.Call>): (r: Option<seq<HandlerCall>>)
    ensures r.Some? <==> forall i :: 0 <= i < |calls| ==> calls[i].Execute?
    ensures r.Some? ==> |r.value| <= |calls|
  {
    if |calls| == 0 then Some([])
    else
      var rest := Forward(calls[1..]);
      assert forall i :: 1 <= i < |calls| ==> calls[1..][i - 1] == calls[i];
      match calls[0]
      case Execute(b) =>
        if rest.None? then None
        else Some((match Execute(b) case Some(h) => [h] case None => []) + rest.value)
      case _ => None
  }

  /** `Processor::advance`: the parser's `advance` with this executor. */
  function Advance(p: V.PState, bytes: seq<u8>): (r: Option<(V.PState, seq<HandlerCall>)>)
    requires p.Valid()
    ensures r.Some? <==> forall i :: 0 <= i < |V.Advance(p, bytes).1| ==> V.Advance(p, bytes).1[i].Execute?
    ensures r.Some? ==> r.value.0 == V.Advance(p, bytes).0
  {
    var (q, calls) := V.Advance(p, bytes);
    var handled := Forward(calls);
    if handled.None? then None else Some((q, handled.value))
  }

  /** A byte the ground state executes in place: a C0 control other than ESC and NAK. */
  predicate ExecutedInGround(b: u8)
  {
    b < 0x20 && b != C0.ESC && b != C0.NAK
  }

  /** Such a byte, fed in the ground state, is one `execute` and changes nothing else. */
  lemma ExecuteStep(p: V.PState, b: u8)
    requires p.Valid() && p.state == Ground && ExecutedInGround(b)
    ensures V.AdvanceSequence(p, b) == (p, [E.Execute(b)])
  {
    GroundRow(b);
    if b == C0.CAN || b == C0.SUB {
      VteProperties.TableStep(p, b, Ground, Action.Execute);
    } else {
      VteProperties.AnywhereStep(p, b, Action.Execute);
    }
  }

  lemma ForwardCons(b: u8, rest: seq<E.Call>)
    requires Forward(rest).Some?
    ensures Forward([E.Execute(b)] + rest)
      == Some((match Execute(b) case Some(h) => [h] case None => []) + Forward(rest).value)
  {
    assert ([E.Execute(b)] + rest)[1..] == rest;
  }

  /** Feeding a run of such bytes in the ground state executes each of them, in order. */
  lemma {:induction false} FeedControls(p: V.PState, bytes: seq<u8>)
    requires p.Valid() && p.state == Ground
    requires forall i :: 0 <= i < |bytes| ==> ExecutedInGround(bytes[i])
    ensures V.Feed(p, bytes).0 == p
    ensures Forward(V.Feed(p, bytes).1) == Some(Handled(bytes))
  {
    if |bytes| > 0 {
      var b := bytes[0];
      ExecuteStep(p, b);
      assert forall i :: 0 <= i < |bytes[1..]| ==> bytes[1..][i] == bytes[i + 1];
      FeedControls(p, bytes[1..]);
      var rest := V.Feed(p, bytes[1..]);
      assert V.Feed(p, bytes) == (rest.0, [E.Execute(b)] + rest.1);
      ForwardCons(b, rest.1);
      assert Handled(bytes) == (match Execute(b) case Some(h) => [h] case None => []) + Handled(bytes[1..]);
    }
  }

  /**
   * In the ground state, a run of C0 controls other than ESC and NAK goes
   * to the handler as one call per handled byte, in order, and leaves the
   * parser as it was; with only bytes BEL through FF every byte makes one.
   */
  lemma AdvanceControls(p: V.PState, bytes: seq<u8>)
    requires p.Valid() && p.state == Ground
    requires forall i :: 0 <= i < |bytes| ==> ExecutedInGround(bytes[i])
    ensures Advance(p, bytes) == Some((p, Handled(bytes)))
  {
    VteProperties.AdvanceIsFeed(p, bytes);
    FeedControls(p, bytes);
  }

  lemma PrintAction(p: V.PState, b: u8)
    requires p.Valid()
    ensures V.ExecuteAction(p, Action.Print, b).1 == [E.Print(ByteChar(b))]
  {
  }

  /** A printable byte in the ground state reaches `print`, which is `todo!()`. */
  lemma PrintPanics(p: V.PState, b: u8)
    requires p.Valid() && p.state == Ground && 0x20 <= b < 0x7F
    ensures Advance(p, [b]).None?
  {
    VteProperties.AdvanceIsFeed(p, [b]);
    VteProperties.FeedOne(p, b);
    GroundRow(b);
    VteProperties.AnywhereStep(p, b, Action.Print);
    PrintAction(p, b);
    assert !V.Advance(p, [b]).1[0].Execute?;
  }
}
