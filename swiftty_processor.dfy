/**
 * swiftty_vte's `Processor` object: the UTF-8 collector it owns, updated
 * in place, and `process`, `process_utf8` and `consume_utf8` as loops
 * over the chunk. Each method is proved against the value-level
 * definitions of `SwifttyProcessorModel`.
 */
module SwifttyProcessor {
  import opened Common
  import Utf8
  import C0
  import SM = SwifttyModel
  import SwifttyVte
  import PM = SwifttyProcessorModel
  import E = Executor

  class Processor {
    const utf8: Utf8.Utf8Collector

    ghost predicate Valid()
      reads this, utf8, utf8.bytes
    {
      utf8.Valid() && PM.Bounded(PM.Pending(utf8.Contents(), utf8.remainingCount))
    }

    /** The collector as a value. */
    function Value(): (c: PM.Pending)
      requires Valid()
      reads this, utf8, utf8.bytes
      ensures PM.Bounded(c)
    {
      PM.Pending(utf8.Contents(), utf8.remainingCount)
    }

    /** `Processor::new`, the derived default. */
    constructor()
      ensures Valid() && fresh(utf8) && fresh(utf8.bytes) && Value() == PM.EMPTY
    {
      utf8 := new Utf8.Utf8Collector();
    }

    /** `consume_utf8`: print the collected character and reset the collector. */
    method ConsumeUtf8() returns (calls: seq<E.Call>)
      requires utf8.Valid() && utf8.len > 0
      modifies utf8
      ensures utf8.Valid() && utf8.Contents() == [] && utf8.remainingCount == 0
      ensures calls == [E.Print(Utf8.IntoChar(old(utf8.Contents())))]
    {
      calls := [E.Print(utf8.Char())];
      utf8.Reset();
    }

    /** `process_utf8`: rounds of `Utf8Round` until the bytes run out. */
    method ProcessUtf8(bytes: seq<u8>) returns (calls: seq<E.Call>)
      requires Valid()
      modifies utf8, utf8.bytes
      ensures Valid() && (Value(), calls) == PM.ProcessUtf8(old(Value()), bytes)
    {
      var remaining := bytes;
      calls := [];
      assert calls + PM.ProcessUtf8(Value(), remaining).1 == PM.ProcessUtf8(Value(), remaining).1;
      while |remaining| > 0
        invariant Valid()
        invariant PM.ProcessUtf8(old(Value()), bytes)
          == (PM.ProcessUtf8(Value(), remaining).0, calls + PM.ProcessUtf8(Value(), remaining).1)
        decreases |remaining|
      {
        PM.Unfold(Value(), remaining);
        var made, n := Utf8Round(remaining);
        ghost var before := calls;
        calls := calls + made;
        remaining := remaining[n..];
        E.CallsAssociative(before, made, PM.ProcessUtf8(Value(), remaining).1);
      }
      assert calls + [] == calls;
    }

    /**
     * One round of the loop of `process_utf8` (lines 66-95): an ASCII byte
     * with nothing pending is printed directly; otherwise the bytes wanted
     * are pushed one by one, the count still wanted is stored, and the
     * character is consumed once none are.
     */
    method Utf8Round(remaining: seq<u8>) returns (calls: seq<E.Call>, n: nat)
      requires Valid() && |remaining| > 0
      modifies utf8, utf8.bytes
      ensures Valid() && (Value(), calls, n) == PM.Utf8Step(old(Value()), remaining)
    {
      ghost var c := Value();
      var want: nat;
      if utf8.remainingCount > 0 {
        want := utf8.remainingCount;
      } else {
        var count := Utf8.ExpectedBytesCount(remaining[0]);
        Utf8.ExpectedBytesCountRanges(remaining[0]);
        if count.Some? {
          if count.value == 1 {
            return [E.Print(ByteChar(remaining[0]))], 1;
          }
          want := count.value;
        } else {
          want := 1;
        }
      }
      n := PM.Min(want, |remaining|);
      assert |c.bytes| + want <= Utf8.MAX_LENGTH && n <= |remaining|;
      for i := 0 to n
        invariant utf8.Valid() && utf8.Contents() == c.bytes + remaining[..i]
        invariant utf8.remainingCount == c.remaining
      {
        utf8.Push(remaining[i]);
        assert remaining[..i + 1] == remaining[..i] + [remaining[i]];
      }
      utf8.remainingCount := want - n;
      calls := [];
      if utf8.remainingCount == 0 {
        calls := ConsumeUtf8();
      }
    }

    /**
     * `process`: the byte loop while the parser is inside a sequence, then
     * rounds of the outer loop until the bytes run out. `panicked` is set
     * where the source's `advance` panics on a byte without a table entry,
     * and nothing is promised about the state it leaves.
     */
    method Process(parser: SwifttyVte.Parser, bytes: seq<u8>) returns (calls: seq<E.Call>, panicked: bool)
      requires Valid() && parser.Valid() && {utf8, utf8.bytes} !! parser.Repr()
      modifies utf8, utf8.bytes, parser.Repr()
      ensures panicked <==> PM.Process(old(Value()), old(parser.Value()), bytes).None?
      ensures !panicked ==> Valid() && parser.Valid()
      ensures !panicked ==> PM.Process(old(Value()), old(parser.Value()), bytes) == Some((Value(), parser.Value(), calls))
    {
      ghost var goal := PM.Process(Value(), parser.Value(), bytes);
      var i;
      calls, i, panicked := FeedSequence(parser, bytes);
      if panicked {
        return [], true;
      }
      var remaining := bytes[i..];
      while |remaining| > 0
        invariant Valid() && parser.Valid() && {utf8, utf8.bytes} !! parser.Repr()
        invariant goal == PM.Prefixed(calls, PM.TextLoop(Value(), parser.Value(), remaining))
        decreases |remaining|
      {
        var made, after;
        made, after, panicked := Round(parser, remaining);
        if panicked {
          return [], true;
        }
        PM.PrefixedTwice(calls, made, PM.TextLoop(Value(), parser.Value(), after));
        calls := calls + made;
        remaining := after;
      }
      assert calls + [] == calls;
    }

    /**
     * One round of the outer loop of `process` (lines 33-58): the text up
     * to the next C0 byte goes to `process_utf8` (all of the bytes when
     * there is none, after which nothing remains); a character it leaves
     * unfinished is printed as U+FFFD and dropped; the C0 byte goes to the
     * parser, and so do the bytes after it while the parser is inside a
     * sequence.
     */
    method Round(parser: SwifttyVte.Parser, remaining: seq<u8>) returns (calls: seq<E.Call>, after: seq<u8>, panicked: bool)
      requires Valid() && parser.Valid() && {utf8, utf8.bytes} !! parser.Repr() && |remaining| > 0
      modifies utf8, utf8.bytes, parser.Repr()
      ensures |after| < |remaining|
      ensures panicked ==> PM.TextLoop(old(Value()), old(parser.Value()), remaining).None?
      ensures !panicked ==> Valid() && parser.Valid()
      ensures !panicked ==>
        PM.TextLoop(old(Value()), old(parser.Value()), remaining) == PM.Prefixed(calls, PM.TextLoop(Value(), parser.Value(), after))
    {
      ghost var c := Value();
      ghost var p := parser.Value();
      var next := C0.FirstIndexOfC0(remaining);
      if next.None? {
        PM.TextLoopText(c, p, remaining);
        calls := ProcessUtf8(remaining);
        assert calls + [] == calls;
        return calls, [], false;
      }
      calls, after, panicked := Control(parser, remaining, next.value, c, p);
    }

    /** The C0 byte at `start`, and the text before it. */
    method Control(parser: SwifttyVte.Parser, remaining: seq<u8>, start: nat, ghost c: PM.Pending, ghost p: SM.SState)
      returns (calls: seq<E.Call>, after: seq<u8>, panicked: bool)
      requires Valid() && parser.Valid() && {utf8, utf8.bytes} !! parser.Repr()
      requires c == Value() && p == parser.Value() && C0.FirstIndexOfC0(remaining) == Some(start)
      modifies utf8, utf8.bytes, parser.Repr()
      ensures |after| < |remaining|
      ensures panicked ==> PM.TextLoop(c, p, remaining).None?
      ensures !panicked ==> Valid() && parser.Valid()
      ensures !panicked ==> PM.TextLoop(c, p, remaining) == PM.Prefixed(calls, PM.TextLoop(Value(), parser.Value(), after))
    {
      PM.C0IsKnown(p, remaining[start]);
      var text := Text(remaining[..start], c);
      var rest := remaining[start..];
      var k3, k4, n;
      k3, k4, n, panicked := Sequence(parser, rest, p);
      PM.DropTwice(remaining, start, 1);
      if panicked {
        PM.OuterRoundPanics(c, p, remaining, start);
        return [], [], true;
      }
      assert Value() == PM.EMPTY;
      calls := text + k3 + k4;
      PM.DropTwice(remaining, start, 1 + n);
      after := rest[1 + n..];
      PM.OuterRound(c, p, remaining, start, text, k3, parser.Value(), k4, n);
    }

    /**
     * The text before a C0 byte (lines 38-43): `process_utf8`, then a
     * character left unfinished is printed as U+FFFD and dropped.
     */
    method Text(text: seq<u8>, ghost c: PM.Pending) returns (calls: seq<E.Call>)
      requires Valid() && c == Value()
      modifies utf8, utf8.bytes
      ensures Valid() && Value() == PM.EMPTY
      ensures calls == PM.ProcessUtf8(c, text).1 + PM.Flushed(PM.ProcessUtf8(c, text).0).1
    {
      calls := ProcessUtf8(text);
      if utf8.remainingCount > 0 {
        calls := calls + [E.Print(REPLACEMENT_CHARACTER)];
        utf8.Reset();
      } else {
        assert calls + [] == calls;
      }
    }
  }

  /**
   * The sequence a C0 byte starts (lines 45-56): the C0 byte goes to the
   * parser, whose loop runs its body once before its test, and so do the
   * bytes after it while the parser is inside a sequence.
   */
  method Sequence(parser: SwifttyVte.Parser, rest: seq<u8>, ghost p: SM.SState) returns (first: seq<E.Call>, calls: seq<E.Call>, n: nat, panicked: bool)
    requires parser.Valid() && p == parser.Value() && |rest| > 0 && SM.Known(p.state, rest[0])
    modifies parser.Repr()
    ensures first == SM.Advance(p, rest[0]).1
    ensures panicked <==> PM.InSequence(SM.Advance(p, rest[0]).0, rest[1..]).None?
    ensures !panicked ==> parser.Valid()
    ensures !panicked ==> PM.InSequence(SM.Advance(p, rest[0]).0, rest[1..]) == Some((parser.Value(), calls, n))
  {
    var stopped;
    first, stopped := parser.Advance(rest[0]);
    calls, n, panicked := FeedSequence(parser, rest[1..]);
  }

  /**
   * The byte loops of `process` (lines 25-28 and the test of 49-56):
   * bytes go to the parser one at a time while it is inside a sequence.
   */
  method FeedSequence(parser: SwifttyVte.Parser, bytes: seq<u8>) returns (calls: seq<E.Call>, n: nat, panicked: bool)
    requires parser.Valid()
    modifies parser.Repr()
    ensures panicked <==> PM.InSequence(old(parser.Value()), bytes).None?
    ensures !panicked ==> parser.Valid() && PM.InSequence(old(parser.Value()), bytes) == Some((parser.Value(), calls, n))
  {
    ghost var cur := parser.Value();
    ghost var goal := PM.InSequence(cur, bytes);
    calls := [];
    n := 0;
    panicked := false;
    assert bytes[0..] == bytes;
    PM.ExtendedByNothing(goal);
    while parser.InEscapeSequence() && n < |bytes|
      invariant parser.Valid() && cur == parser.Value() && n <= |bytes|
      invariant goal == PM.Extended(calls, n, PM.InSequence(cur, bytes[n..]))
      decreases |bytes| - n
    {
      var k, stopped := parser.Advance(bytes[n]);
      if stopped {
        PM.InSequenceStops(goal, calls, n, cur, bytes);
        return [], 0, true;
      }
      PM.InSequenceAdvances(goal, calls, n, cur, parser.Value(), k, bytes);
      cur := parser.Value();
      calls := calls + k;
      n := n + 1;
    }
    PM.InSequenceDone(goal, calls, n, cur, bytes);
  }
}
