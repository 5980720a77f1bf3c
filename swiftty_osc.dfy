/**
 * swiftty_vte's OSC `Handler`: sixteen (begin, end) parameter entries, the
 * number of entries in use and a raw buffer without a size limit. The value
 * `OscState` holds all sixteen entries, because `dispatch` as written reads
 * all of them, also the stale ones a longer earlier string left behind.
 */
module SwifttyOsc {
  import opened Common
  import opened VteModel
  import opened VteCsi
  import VteOsc
  import E = Executor

  const SEPARATOR: u8 := 0x3B

  /** The handler's fields: every entry of `params`, `params_num` and `raw`. */
  datatype OscState = OscState(entries: seq<(nat, nat)>, num: nat, raw: seq<u8>)
  {
    /** The entries in use are contiguous spans of `raw`. */
    ghost predicate Valid()
    {
      |entries| == MAX_OSC_PARAMS && num <= MAX_OSC_PARAMS && Contiguous(entries[..num], |raw|)
    }

    /** The entries in use. */
    function Spans(): (r: seq<(nat, nat)>)
      requires |entries| == MAX_OSC_PARAMS && num <= MAX_OSC_PARAMS
      ensures |r| == num && forall i :: 0 <= i < num ==> r[i] == entries[i]
    {
      entries[..num]
    }
  }

  /** `Handler::default`. */
  const DEFAULT: OscState := OscState(seq(MAX_OSC_PARAMS, _ => (0, 0)), 0, [])

  lemma DefaultValid()
    ensures DEFAULT.Valid() && DEFAULT.Spans() == [] && DEFAULT.raw == []
  {
  }

  /** `start`: the raw buffer is emptied and no entry is in use; the entries keep their values. */
  function Started(o: OscState): (r: OscState)
    requires o.Valid()
    ensures r.Valid() && r.raw == [] && r.Spans() == [] && r.entries == o.entries
  {
    o.(num := 0, raw := [])
  }

  /**
   * Records the parameter that ends at the end of `raw`, unless sixteen
   * are recorded: it begins at 0 if it is the first, else where the
   * previous one ended.
   */
  function Closed(o: OscState): (r: OscState)
    requires o.Valid()
    ensures r.Valid() && r.raw == o.raw
    ensures o.num < MAX_OSC_PARAMS ==> r.Spans() == o.Spans() + [(NextSpanBegin(o.Spans()), |o.raw|)]
    ensures o.num == MAX_OSC_PARAMS ==> r == o
  {
    if o.num == MAX_OSC_PARAMS then o
    else
      var begin := if o.num == 0 then 0 else o.entries[o.num - 1].1;
      var r := o.(entries := o.entries[o.num := (begin, |o.raw|)], num := o.num + 1);
      assert r.Spans() == o.Spans() + [(NextSpanBegin(o.Spans()), |o.raw|)];
      r
  }

  /** `put`: a separator closes a parameter, every other byte is appended to `raw`. */
  function PutByte(o: OscState, b: u8): (r: OscState)
    requires o.Valid()
    ensures r.Valid()
    ensures b != SEPARATOR ==> r.raw == o.raw + [b] && r.Spans() == o.Spans()
    ensures b == SEPARATOR ==> r == Closed(o)
  {
    if b != SEPARATOR then o.(raw := o.raw + [b]) else Closed(o)
  }

  /** The slices of the entries in use. */
  function Slices(o: OscState): (r: seq<seq<u8>>)
    requires o.Valid()
    ensures |r| == o.num
    ensures forall i :: 0 <= i < o.num ==> r[i] == o.raw[o.entries[i].0..o.entries[i].1]
  {
    seq(o.num, i requires 0 <= i < o.num => o.raw[o.entries[i].0..o.entries[i].1])
  }

  /** `end`: closes the last parameter, then dispatches the slices in use; BEL marks bell termination. */
  function Ended(o: OscState, b: u8): (r: (OscState, E.Call))
    requires o.Valid()
    ensures r.0 == Closed(o) && r.1 == E.OscDispatch(Slices(Closed(o)), b == BEL)
  {
    var c := Closed(o);
    (c, E.OscDispatch(Slices(c), b == BEL))
  }

  // ---------------------------------------------------------------------
  // `dispatch` as written slices all sixteen entries before truncating.

  /** Every one of the sixteen entries is a valid range of `raw`. */
  predicate AllInBounds(o: OscState)
  {
    forall i :: 0 <= i < |o.entries| ==> o.entries[i].0 <= o.entries[i].1 <= |o.raw|
  }

  /**
   * `dispatch` as written: `raw[start..end]` for all sixteen entries, which
   * panics (None) as soon as one range does not fit `raw`, and only then
   * the first `params_num` of them.
   */
  function DispatchAllEntries(o: OscState, b: u8): (r: Option<E.Call>)
    requires o.Valid()
    ensures r.Some? <==> AllInBounds(o)
    ensures r.Some? ==> r.value == E.OscDispatch(Slices(o), b == BEL)
  {
    if AllInBounds(o) then Some(E.OscDispatch(Slices(o), b == BEL)) else None
  }

  /**
   * The stale entries make `dispatch` panic: `ESC ] a;b BEL` leaves the
   * entries (0, 1) and (1, 2); `ESC ] BEL` then records (0, 0) as its only
   * parameter, but slicing the stale entry (1, 2) of an empty `raw` fails.
   */
  lemma StaleEntryPanics()
    ensures var first := Ended(PutByte(PutByte(PutByte(Started(DEFAULT), 0x61), SEPARATOR), 0x62), BEL).0;
            var second := Closed(Started(first));
            DispatchAllEntries(second, BEL).None? && Slices(second) == [[]]
  {
    var o1 := PutByte(PutByte(PutByte(Started(DEFAULT), 0x61), SEPARATOR), 0x62);
    assert o1.entries[0] == (0, 1);
    var first := Ended(o1, BEL).0;
    assert first.entries[1] == (1, 2);
    var second := Closed(Started(first));
    assert second.entries[1] == (1, 2) && second.raw == [];
    assert !AllInBounds(second);
  }

  // ---------------------------------------------------------------------
  // Reference: the parameters are the first sixteen `;`-separated pieces.

  /** `put` of every byte of `s`, in order. */
  function PutAll(o: OscState, s: seq<u8>): (r: OscState)
    requires o.Valid()
    ensures r.Valid()
    decreases |s|
  {
    if |s| == 0 then o else PutAll(PutByte(o, s[0]), s[1..])
  }

  lemma {:induction false} PutAllSnoc(o: OscState, s: seq<u8>, b: u8)
    requires o.Valid()
    ensures PutAll(o, s + [b]) == PutByte(PutAll(o, s), b)
    decreases |s|
  {
    if |s| == 0 {
      assert (s + [b])[1..] == [];
    } else {
      assert (s + [b])[0] == s[0];
      assert (s + [b])[1..] == s[1..] + [b];
      PutAllSnoc(PutByte(o, s[0]), s[1..], b);
    }
  }

  /**
   * The handler after the string `s`: `raw` is every byte but the
   * separators, and one entry per closed piece, at most sixteen, spanning
   * the piece's bytes in `raw`.
   */
  ghost predicate Inv(s: seq<u8>, o: OscState)
    requires o.Valid()
  {
    var fs := VteOsc.Pieces(s);
    o.raw == VteOsc.Concat(fs)
    && o.num == (if |fs| - 1 < MAX_OSC_PARAMS then |fs| - 1 else MAX_OSC_PARAMS)
    && forall i :: 0 <= i < o.num ==> o.entries[i] == (VteOsc.Offset(fs, i), VteOsc.Offset(fs, i + 1))
  }

  lemma SeparatorInv(s: seq<u8>, o: OscState)
    requires o.Valid() && Inv(s, o)
    ensures Inv(s + [SEPARATOR], PutByte(o, SEPARATOR))
  {
    VteOsc.SeparatorPieces(s);
    var fs := VteOsc.Pieces(s);
    var n := |fs|;
    if o.num < MAX_OSC_PARAMS {
      var r := PutByte(o, SEPARATOR);
      assert fs[..n] == fs;
      assert VteOsc.Offset(fs, 0) == 0;
      assert NextSpanBegin(o.Spans()) == VteOsc.Offset(fs, n - 1);
      assert r.Spans()[o.num] == (VteOsc.Offset(fs, n - 1), VteOsc.Offset(fs, n));
    }
  }

  lemma ByteInv(s: seq<u8>, o: OscState, b: u8)
    requires o.Valid() && Inv(s, o) && b != SEPARATOR
    ensures Inv(s + [b], PutByte(o, b))
  {
    VteOsc.BytePieces(s, b);
  }

  lemma {:induction false} PutAllInv(o: OscState, s: seq<u8>)
    requires o.Valid()
    ensures Inv(s, PutAll(Started(o), s))
    decreases |s|
  {
    if |s| == 0 {
      assert VteOsc.Pieces(s) == [[]];
      var none: seq<seq<u8>> := [];
      assert [[]][..0] == none;
    } else {
      var init := s[..|s| - 1];
      var b := s[|s| - 1];
      PutAllInv(o, init);
      assert init + [b] == s;
      PutAllSnoc(Started(o), init, b);
      if b == SEPARATOR {
        SeparatorInv(init, PutAll(Started(o), init));
      } else {
        ByteInv(init, PutAll(Started(o), init), b);
      }
    }
  }

  /**
   * `start`, `put` of every byte of `s` and `end` dispatch the first
   * sixteen pieces of `s`, whatever their length, and flag bell
   * termination exactly for BEL.
   */
  lemma EndIsReference(o: OscState, s: seq<u8>, b: u8)
    requires o.Valid()
    ensures Ended(PutAll(Started(o), s), b).1 == E.OscDispatch(Take(VteOsc.Pieces(s), MAX_OSC_PARAMS), b == BEL)
  {
    var q := PutAll(Started(o), s);
    PutAllInv(o, s);
    ClosedInv(s, q);
    ClosedSlices(VteOsc.Pieces(s), Closed(q));
  }

  /** Entries spanning the pieces of a raw buffer slice out the first sixteen pieces themselves. */
  lemma ClosedSlices(fs: seq<seq<u8>>, c: OscState)
    requires c.Valid() && c.raw == VteOsc.Concat(fs) && c.num == |Take(fs, MAX_OSC_PARAMS)|
    requires forall i :: 0 <= i < c.num ==> c.entries[i] == (VteOsc.Offset(fs, i), VteOsc.Offset(fs, i + 1))
    ensures Slices(c) == Take(fs, MAX_OSC_PARAMS)
  {
    var ref := Take(fs, MAX_OSC_PARAMS);
    forall i | 0 <= i < |ref|
      ensures Slices(c)[i] == ref[i]
    {
      VteOsc.OffsetStep(fs, i);
    }
  }

  /** After `end`, one entry per piece, at most sixteen, each spanning its piece. */
  lemma ClosedInv(s: seq<u8>, q: OscState)
    requires q.Valid() && Inv(s, q)
    ensures Closed(q).raw == VteOsc.Concat(VteOsc.Pieces(s))
    ensures Closed(q).num == |Take(VteOsc.Pieces(s), MAX_OSC_PARAMS)|
    ensures forall i :: 0 <= i < Closed(q).num ==>
      Closed(q).entries[i] == (VteOsc.Offset(VteOsc.Pieces(s), i), VteOsc.Offset(VteOsc.Pieces(s), i + 1))
  {
    var fs := VteOsc.Pieces(s);
    var n := |fs|;
    if q.num < MAX_OSC_PARAMS {
      assert fs[..n] == fs;
      assert VteOsc.Offset(fs, 0) == 0;
      assert Closed(q).Spans()[q.num] == (VteOsc.Offset(fs, n - 1), VteOsc.Offset(fs, n));
    }
  }

  // ---------------------------------------------------------------------
  // The handler object.

  /** `Handler`: the entries array, `params_num` and the raw bytes. */
  class Handler {
    const params: array<(nat, nat)>
    var paramsNum: nat
    var raw: seq<u8>

    ghost predicate Valid()
      reads this, params
    {
      params.Length == MAX_OSC_PARAMS && Value().Valid()
    }

    function Value(): (v: OscState)
      requires params.Length == MAX_OSC_PARAMS
      reads this, params
      ensures |v.entries| == MAX_OSC_PARAMS
    {
      OscState(params[..], paramsNum, raw)
    }

    /** `Handler::default`. */
    constructor()
      ensures Valid() && fresh(params) && Value() == DEFAULT
    {
      params := new (nat, nat)[MAX_OSC_PARAMS](_ => (0, 0));
      paramsNum := 0;
      raw := [];
      new;
      assert params[..] == DEFAULT.entries;
    }

    /** `start`. */
    method Start()
      requires Valid()
      modifies this
      ensures Valid() && Value() == Started(old(Value()))
    {
      raw := [];
      paramsNum := 0;
    }

    /** Records the entry of the parameter ending at `idx`, given fewer than sixteen are in use. */
    method CloseParam(idx: nat)
      requires Valid() && paramsNum < MAX_OSC_PARAMS && idx == |raw|
      modifies this, params
      ensures Valid() && Value() == Closed(old(Value()))
    {
      if paramsNum == 0 {
        params[0] := (0, idx);
      } else {
        var prev := params[paramsNum - 1];
        params[paramsNum] := (prev.1, idx);
      }
      paramsNum := paramsNum + 1;
    }

    /** `put`. */
    method Put(b: u8)
      requires Valid()
      modifies this, params
      ensures Valid() && Value() == PutByte(old(Value()), b)
    {
      var idx := |raw|;
      if b != SEPARATOR {
        raw := raw + [b];
        return;
      }
      if paramsNum == MAX_OSC_PARAMS {
        return;
      }
      CloseParam(idx);
    }

    /** `end`: closes the last parameter unless sixteen are in use, then dispatches. */
    method End(b: u8) returns (call: E.Call)
      requires Valid()
      modifies this, params
      ensures Valid() && (Value(), call) == Ended(old(Value()), b)
    {
      var idx := |raw|;
      if paramsNum != MAX_OSC_PARAMS {
        CloseParam(idx);
      }
      call := Dispatch(b);
    }

    /** `dispatch`, slicing only the `params_num` entries in use. */
    method Dispatch(b: u8) returns (call: E.Call)
      requires Valid()
      ensures call == E.OscDispatch(Slices(Value()), b == BEL)
    {
      var slices: seq<seq<u8>> := [];
      var i := 0;
      while i < paramsNum
        invariant i <= paramsNum && |slices| == i
        invariant forall k :: 0 <= k < i ==> slices[k] == raw[params[k].0..params[k].1]
      {
        assert Value().Spans()[i] == params[i];
        var range := params[i];
        slices := slices + [raw[range.0..range.1]];
        i := i + 1;
      }
      call := E.OscDispatch(slices, b == BEL);
    }

    /** `dispatch` as written: every one of the sixteen entries is sliced; None where that panics. */
    method DispatchAsWritten(b: u8) returns (r: Option<E.Call>)
      requires Valid()
      ensures r == DispatchAllEntries(Value(), b)
    {
      var slices: seq<seq<u8>> := [];
      var i := 0;
      while i < MAX_OSC_PARAMS
        invariant i <= MAX_OSC_PARAMS && |slices| == i
        invariant forall k :: 0 <= k < i ==> params[k].0 <= params[k].1 <= |raw|
        invariant forall k :: 0 <= k < i ==> slices[k] == raw[params[k].0..params[k].1]
      {
        var range := params[i];
        if !(range.0 <= range.1 <= |raw|) {
          assert !AllInBounds(Value());
          return None;
        }
        slices := slices + [raw[range.0..range.1]];
        i := i + 1;
      }
      assert AllInBounds(Value());
      assert slices[..paramsNum] == Slices(Value());
      r := Some(E.OscDispatch(slices[..paramsNum], b == BEL));
    }
  }
}
