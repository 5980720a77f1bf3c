/**
 * swiftty_backend's `Processor` object: a four-byte UTF-8 buffer with the
 * count of bytes in it and the count still expected, updated in place,
 * and `process`, `process_utf8`, `is_ready_to_consume_utf8` and
 * `consume_utf8` over it. Each method is proved against the value-level
 * definitions of `BackendProcessorModel`.
 */
module BackendProcessor {
  import opened Common
  import Utf8
  import BackendUtf8
  import BackendScan
  import C0
  import SM = SwifttyModel
  import SwifttyVte
  import SwifttyProcessor
  import PM = SwifttyProcessorModel
  import BM = BackendProcessorModel
  import E = Executor

  class Processor {
    const utf8Bytes: array<u8>
    var utf8Len: nat
    var utf8RemainingCount: nat

    /** The buffer has four bytes, and those collected plus those still expected fit in it. */
    ghost predicate Sized()
      reads this
    {
      utf8Bytes.Length == Utf8.MAX_LENGTH && utf8Len + utf8RemainingCount <= Utf8.MAX_LENGTH
    }

    /** Between calls, moreover, bytes are buffered only while more are expected. */
    ghost predicate Valid()
      reads this
    {
      Sized() && (utf8RemainingCount == 0 ==> utf8Len == 0)
    }

    /** The buffer as a value. */
    function Value(): (c: PM.Pending)
      requires Sized()
      reads this, utf8Bytes
      ensures |c.bytes| == utf8Len && c.remaining == utf8RemainingCount
      ensures Valid() <==> PM.Bounded(c)
    {
      PM.Pending(utf8Bytes[..utf8Len], utf8RemainingCount)
    }

    /** `Processor::new`, the derived default. */
    constructor()
      ensures Valid() && fresh(utf8Bytes) && Value() == PM.EMPTY
    {
      utf8Bytes := new u8[Utf8.MAX_LENGTH](_ => 0);
      utf8Len := 0;
      utf8RemainingCount := 0;
    }

    /** `is_ready_to_consume_utf8`. */
    function IsReadyToConsumeUtf8(): (r: bool)
      requires Sized()
      reads this, utf8Bytes
      ensures r <==> BM.IsReady(Value())
      ensures r ==> !Valid()
    {
      utf8RemainingCount == 0 && utf8Len > 0
    }

    /** `consume_utf8`: print the buffered bytes as one character and zero both counters. */
    method ConsumeUtf8() returns (calls: seq<E.Call>)
      requires Sized() && utf8Len > 0
      modifies this
      ensures Valid() && Value() == PM.EMPTY
      ensures calls == [E.Print(Utf8.IntoChar(old(Value()).bytes))]
    {
      calls := [E.Print(Utf8.IntoChar(utf8Bytes[..utf8Len]))];
      utf8Len := 0;
      utf8RemainingCount := 0;
    }

    /** The test that consumes a ready buffer (lines 48-50 and 92-94). */
    method ConsumeIfReady() returns (calls: seq<E.Call>)
      requires Sized()
      modifies this
      ensures Sized() && (Value(), calls) == BM.ConsumeIfReady(old(Value()))
    {
      calls := [];
      if IsReadyToConsumeUtf8() {
        calls := ConsumeUtf8();
      }
    }

    /** `process_utf8`: rounds of `Utf8Round` until the bytes run out. */
    method ProcessUtf8(bytes: seq<u8>) returns (calls: seq<E.Call>)
      requires Valid()
      modifies this, utf8Bytes
      ensures Valid() && (Value(), calls) == BM.ProcessUtf8(old(Value()), bytes)
    {
      var remaining := bytes;
      calls := [];
      assert calls + BM.ProcessUtf8(Value(), remaining).1 == BM.ProcessUtf8(Value(), remaining).1;
      while |remaining| > 0
        invariant Valid()
        invariant BM.ProcessUtf8(old(Value()), bytes)
          == (BM.ProcessUtf8(Value(), remaining).0, calls + BM.ProcessUtf8(Value(), remaining).1)
        decreases |remaining|
      {
        var made, n := Utf8Round(remaining);
        ghost var before := calls;
        calls := calls + made;
        remaining := remaining[n..];
        E.CallsAssociative(before, made, BM.ProcessUtf8(Value(), remaining).1);
      }
      assert calls + [] == calls;
    }

    /**
     * One round of the loop of `process_utf8` (lines 73-96): the count
     * wanted, then that many bytes (or all there are) copied one by one
     * into the buffer, the count still wanted stored, and the character
     * consumed if it is ready.
     */
    method Utf8Round(remaining: seq<u8>) returns (calls: seq<E.Call>, n: nat)
      requires Valid() && |remaining| > 0
      modifies this, utf8Bytes
      ensures Valid() && (Value(), calls, n) == BM.Round(old(Value()), remaining)
    {
      ghost var c := Value();
      var want: nat;
      if utf8RemainingCount > 0 {
        want := utf8RemainingCount;
      } else {
        var count := BackendUtf8.ExpectedBytesCount(remaining[0]);
        if count.Some? {
          want := count.value;
        } else {
          want := 1;
        }
      }
      assert want == BM.WantBytes(c, remaining[0]);
      n := PM.Min(want, |remaining|);
      for i := 0 to n
        invariant utf8Bytes.Length == Utf8.MAX_LENGTH && utf8Len == |c.bytes| + i
        invariant utf8Bytes[..utf8Len] == c.bytes + remaining[..i]
        invariant utf8RemainingCount == c.remaining
      {
        utf8Bytes[utf8Len] := remaining[i];
        utf8Len := utf8Len + 1;
        assert remaining[..i + 1] == remaining[..i] + [remaining[i]];
      }
      utf8RemainingCount := want - n;
      calls := ConsumeIfReady();
    }

    /**
     * `process`: the byte loop while the parser is inside a sequence, then
     * rounds of the outer loop until the bytes run out. `panicked` is set
     * where the parser's `advance` panics on a byte without a table entry,
     * and nothing is promised about the state it leaves.
     */
    method Process(parser: SwifttyVte.Parser, bytes: seq<u8>) returns (calls: seq<E.Call>, panicked: bool)
      requires Valid() && parser.Valid() && {this, utf8Bytes} !! parser.Repr()
      modifies this, utf8Bytes, parser.Repr()
      ensures panicked <==> BM.Process(old(Value()), old(parser.Value()), bytes).None?
      ensures !panicked ==> Valid() && parser.Valid()
      ensures !panicked ==> BM.Process(old(Value()), old(parser.Value()), bytes) == Some((Value(), parser.Value(), calls))
    {
      ghost var goal := BM.Process(Value(), parser.Value(), bytes);
      var i;
      calls, i, panicked := SwifttyProcessor.FeedSequence(parser, bytes);
      if panicked {
        return [], true;
      }
      var remaining := bytes[i..];
      while |remaining| > 0
        invariant Valid() && parser.Valid() && {this, utf8Bytes} !! parser.Repr()
        invariant goal == PM.Prefixed(calls, BM.TextLoop(Value(), parser.Value(), remaining))
        decreases |remaining|
      {
        var made, after;
        made, after, panicked := Round(parser, remaining);
        if panicked {
          return [], true;
        }
        PM.PrefixedTwice(calls, made, BM.TextLoop(Value(), parser.Value(), after));
        calls := calls + made;
        remaining := after;
      }
      assert calls + [] == calls;
    }

    /**
     * One round of the outer loop of `process` (lines 41-65): with no
     * control in the bytes, all of them go to `process_utf8` and the call
     * returns; otherwise the text before the first control does.
     */
    method Round(parser: SwifttyVte.Parser, remaining: seq<u8>) returns (calls: seq<E.Call>, after: seq<u8>, panicked: bool)
      requires Valid() && parser.Valid() && {this, utf8Bytes} !! parser.Repr() && |remaining| > 0
      modifies this, utf8Bytes, parser.Repr()
      ensures |after| < |remaining|
      ensures panicked ==> BM.TextLoop(old(Value()), old(parser.Value()), remaining).None?
      ensures !panicked ==> Valid() && parser.Valid()
      ensures !panicked ==>
        BM.TextLoop(old(Value()), old(parser.Value()), remaining) == PM.Prefixed(calls, BM.TextLoop(Value(), parser.Value(), after))
    {
      ghost var c := Value();
      ghost var p := parser.Value();
      var next := BackendScan.ProcessorFirstIndex(remaining);
      if next.None? {
        BM.TextLoopText(c, p, remaining);
        calls := ProcessUtf8(remaining);
        assert calls + [] == calls;
        return calls, [], false;
      }
      calls, after, panicked := Control(parser, remaining, next.value, c, p);
    }

    /**
     * The control at `start` (lines 46-65): the text before it goes to
     * `process_utf8`, a ready buffer is consumed, and the control and the
     * bytes after it go to the parser while it is inside a sequence.
     */
    method Control(parser: SwifttyVte.Parser, remaining: seq<u8>, start: nat, ghost c: PM.Pending, ghost p: SM.SState)
      returns (calls: seq<E.Call>, after: seq<u8>, panicked: bool)
      requires Valid() && parser.Valid() && {this, utf8Bytes} !! parser.Repr()
      requires c == Value() && p == parser.Value() && C0.FirstIndexIn(remaining, BackendScan.C0_ARRAY) == Some(start)
      modifies this, utf8Bytes, parser.Repr()
      ensures |after| < |remaining|
      ensures panicked ==> BM.TextLoop(c, p, remaining).None?
      ensures !panicked ==> Valid() && parser.Valid()
      ensures !panicked ==> BM.TextLoop(c, p, remaining) == PM.Prefixed(calls, BM.TextLoop(Value(), parser.Value(), after))
    {
      BM.ControlIsKnown(p, remaining[start]);
      var text := Text(remaining[..start], c);
      calls, after, panicked := Dispatch(parser, remaining, start, c, p, text);
    }

    /**
     * The control at `start` and the bytes after it while the parser is
     * inside a sequence (lines 52-63), once the text before it is done.
     */
    method Dispatch(parser: SwifttyVte.Parser, remaining: seq<u8>, start: nat, ghost c: PM.Pending, ghost p: SM.SState, text: seq<E.Call>)
      returns (calls: seq<E.Call>, after: seq<u8>, panicked: bool)
      requires Valid() && parser.Valid() && {this, utf8Bytes} !! parser.Repr()
      requires PM.Bounded(c) && p == parser.Value()
      requires C0.FirstIndexIn(remaining, BackendScan.C0_ARRAY) == Some(start) && SM.Known(p.state, remaining[start])
      requires var t := BM.ProcessUtf8(c, remaining[..start]);
        Value() == BM.ConsumeIfReady(t.0).0 && text == t.1 + BM.ConsumeIfReady(t.0).1
      modifies parser.Repr()
      ensures |after| < |remaining|
      ensures panicked ==> BM.TextLoop(c, p, remaining).None?
      ensures !panicked ==> Valid() && parser.Valid()
      ensures !panicked ==> BM.TextLoop(c, p, remaining) == PM.Prefixed(calls, BM.TextLoop(Value(), parser.Value(), after))
    {
      var rest := remaining[start..];
      var k3, k4, n;
      k3, k4, n, panicked := SwifttyProcessor.Sequence(parser, rest, p);
      PM.DropTwice(remaining, start, 1);
      if panicked {
        BM.OuterRoundPanics(c, p, remaining, start);
        return [], [], true;
      }
      calls := text + k3 + k4;
      PM.DropTwice(remaining, start, 1 + n);
      after := rest[1 + n..];
      BM.OuterRound(c, p, remaining, start, text, Value(), k3, parser.Value(), k4, n);
    }

    /**
     * The text before a control (lines 47-50): `process_utf8`, then the
     * test that consumes a ready buffer, which `process_utf8` never leaves.
     */
    method Text(text: seq<u8>, ghost c: PM.Pending) returns (calls: seq<E.Call>)
      requires Valid() && c == Value()
      modifies this, utf8Bytes
      ensures Valid()
      ensures var t := BM.ProcessUtf8(c, text);
        Value() == BM.ConsumeIfReady(t.0).0 && calls == t.1 + BM.ConsumeIfReady(t.0).1
    {
      calls := ProcessUtf8(text);
      var ready := ConsumeIfReady();
      calls := calls + ready;
    }
  }
}
