/**
 * CSI parameters as section 5.4.2 of ECMA-48 describes them, as an
 * independent reference: the parameter string is split at `;` into
 * parameters and each parameter at `:` into sub-parameters, every piece a
 * decimal number (empty meaning 0). The reference then applies saiga_vte's
 * caps: values saturate at 65535, at most 32 sub-parameters per parameter
 * are kept, at most 16 parameters, and a 17th sets `ignore`. The lemmas
 * prove that the parser's byte-by-byte `Param` action computes exactly
 * this, and that a whole CSI sequence dispatches it.
 */
module VteCsi {
  import opened Common
  import opened Table
  import opened VteParams
  import opened VteModel
  import opened VteProperties
  import C0
  import E = Executor

  predicate IsDigit(b: u8)
  {
    0x30 <= b <= 0x39
  }

  /** The bytes the CSI parameter rows treat as `Param`: digits, `:` and `;`. */
  predicate IsParamByte(b: u8)
  {
    0x30 <= b <= 0x3B
  }

  predicate AllDigits(s: seq<u8>)
  {
    forall i :: 0 <= i < |s| ==> IsDigit(s[i])
  }

  /** `s` split at every `sep`: always at least one (possibly empty) piece. */
  function Split(s: seq<u8>, sep: u8): (pieces: seq<seq<u8>>)
    ensures |pieces| >= 1
    decreases |s|
  {
    if |s| == 0 then [[]]
    else
      var init := Split(s[..|s| - 1], sep);
      if s[|s| - 1] == sep then init + [[]]
      else init[..|init| - 1] + [init[|init| - 1] + [s[|s| - 1]]]
  }

  /** Horner's rule: the digits of `s` appended, most significant first, to the value `acc`. */
  function DecimalFrom(acc: nat, s: seq<u8>): nat
    requires AllDigits(s)
    decreases |s|
  {
    if |s| == 0 then acc else DecimalFrom(10 * acc + (s[0] - 0x30), s[1..])
  }

  /** The unbounded decimal value of a string of digits; the empty string is 0. */
  function Decimal(s: seq<u8>): nat
    requires AllDigits(s)
  {
    DecimalFrom(0, s)
  }

  /** One more digit at the end multiplies the value by ten and adds the digit. */
  lemma {:induction false} DecimalSnoc(acc: nat, s: seq<u8>, d: u8)
    requires AllDigits(s) && IsDigit(d)
    ensures AllDigits(s + [d])
    ensures DecimalFrom(acc, s + [d]) == 10 * DecimalFrom(acc, s) + (d - 0x30)
    decreases |s|
  {
    assert AllDigits(s + [d]) by {
      forall i | 0 <= i < |s| + 1 ensures IsDigit((s + [d])[i]) {
        if i < |s| { assert (s + [d])[i] == s[i]; }
      }
    }
    if |s| == 0 {
      assert s + [d] == [d];
      assert [d][1..] == [];
    } else {
      assert (s + [d])[0] == s[0];
      assert (s + [d])[1..] == s[1..] + [d];
      DecimalSnoc(10 * acc + (s[0] - 0x30), s[1..], d);
    }
  }

  /** A decimal value as a `u16`, saturated at 65535. */
  function SatDecimal(s: seq<u8>): u16
    requires AllDigits(s)
  {
    if Decimal(s) > U16_MAX then U16_MAX else Decimal(s)
  }

  function Take<T>(s: seq<T>, n: nat): (r: seq<T>)
    ensures |r| == if |s| < n then |s| else n
  {
    if |s| <= n then s else s[..n]
  }

  /** Every piece of a split holds only bytes of the input other than the separator. */
  lemma {:induction false} SplitPieces(s: seq<u8>, sep: u8)
    ensures forall i, j :: 0 <= i < |Split(s, sep)| && 0 <= j < |Split(s, sep)[i]| ==>
      Split(s, sep)[i][j] != sep && Split(s, sep)[i][j] in s
    decreases |s|
  {
    if |s| > 0 {
      var init := s[..|s| - 1];
      SplitPieces(init, sep);
      forall i, j | 0 <= i < |Split(s, sep)| && 0 <= j < |Split(s, sep)[i]|
        ensures Split(s, sep)[i][j] != sep && Split(s, sep)[i][j] in s
      {
        var pieces := Split(init, sep);
        if s[|s| - 1] != sep && i == |pieces| - 1 && j == |pieces[i]| {
          assert Split(s, sep)[i][j] == s[|s| - 1];
        } else {
          assert Split(s, sep)[i][j] == pieces[i][j];
          assert pieces[i][j] in init;
        }
      }
    }
  }

  /** A parameter string's pieces at `:` inside one parameter are digit strings. */
  predicate ParamField(f: seq<u8>)
  {
    forall i :: 0 <= i < |f| ==> IsDigit(f[i]) || f[i] == SUBPARAM_SEPARATOR
  }

  lemma SubfieldsAreDigits(f: seq<u8>)
    requires ParamField(f)
    ensures forall i :: 0 <= i < |Split(f, SUBPARAM_SEPARATOR)| ==> AllDigits(Split(f, SUBPARAM_SEPARATOR)[i])
  {
    SplitPieces(f, SUBPARAM_SEPARATOR);
    var g := Split(f, SUBPARAM_SEPARATOR);
    forall i, j | 0 <= i < |g| && 0 <= j < |g[i]|
      ensures IsDigit(g[i][j])
    {
      var k :| 0 <= k < |f| && f[k] == g[i][j];
    }
  }

  predicate ParamString(s: seq<u8>)
  {
    forall i :: 0 <= i < |s| ==> IsParamByte(s[i])
  }

  lemma FieldsAreParamFields(s: seq<u8>)
    requires ParamString(s)
    ensures forall i :: 0 <= i < |Split(s, PARAM_SEPARATOR)| ==> ParamField(Split(s, PARAM_SEPARATOR)[i])
  {
    SplitPieces(s, PARAM_SEPARATOR);
    var g := Split(s, PARAM_SEPARATOR);
    forall i, j | 0 <= i < |g| && 0 <= j < |g[i]|
      ensures IsDigit(g[i][j]) || g[i][j] == SUBPARAM_SEPARATOR
    {
      var k :| 0 <= k < |s| && s[k] == g[i][j];
    }
  }

  /** The saturated values of digit strings. */
  function SatDecimals(fields: seq<seq<u8>>): (r: seq<u16>)
    requires forall i :: 0 <= i < |fields| ==> AllDigits(fields[i])
    ensures |r| == |fields| && forall i :: 0 <= i < |fields| ==> r[i] == SatDecimal(fields[i])
  {
    seq(|fields|, i requires 0 <= i < |fields| => SatDecimal(fields[i]))
  }

  /** One parameter: its first 32 sub-parameters. */
  function Subparams(f: seq<u8>): (r: seq<u16>)
    requires ParamField(f)
    ensures |r| <= MAX_SUBPARAMS
  {
    SubfieldsAreDigits(f);
    Take(SatDecimals(Split(f, SUBPARAM_SEPARATOR)), MAX_SUBPARAMS)
  }

  function AllSubparams(fields: seq<seq<u8>>): (r: seq<seq<u16>>)
    requires forall i :: 0 <= i < |fields| ==> ParamField(fields[i])
    ensures |r| == |fields| && forall i :: 0 <= i < |fields| ==> r[i] == Subparams(fields[i])
  {
    seq(|fields|, i requires 0 <= i < |fields| => Subparams(fields[i]))
  }

  /** The reference: the parameters dispatched for a parameter string, and `ignore`. */
  function Reference(s: seq<u8>): (r: (seq<seq<u16>>, bool))
    requires ParamString(s)
    ensures |r.0| <= MAX_PARAMS
  {
    FieldsAreParamFields(s);
    var fields := Split(s, PARAM_SEPARATOR);
    (Take(AllSubparams(fields), MAX_PARAMS), |fields| > MAX_PARAMS)
  }

  /** A parameter string's parameters, each a valid parameter field. */
  function Fields(s: seq<u8>): (fs: seq<seq<u8>>)
    requires ParamString(s)
    ensures fs == Split(s, PARAM_SEPARATOR)
    ensures |fs| >= 1 && forall i :: 0 <= i < |fs| ==> ParamField(fs[i])
  {
    FieldsAreParamFields(s);
    Split(s, PARAM_SEPARATOR)
  }

  /** A parameter's sub-parameters, each a string of digits. */
  function Subfields(f: seq<u8>): (gs: seq<seq<u8>>)
    requires ParamField(f)
    ensures gs == Split(f, SUBPARAM_SEPARATOR)
    ensures |gs| >= 1 && forall i :: 0 <= i < |gs| ==> AllDigits(gs[i])
  {
    SubfieldsAreDigits(f);
    Split(f, SUBPARAM_SEPARATOR)
  }

  /** The parameter accumulator of the parser: (params, subparam, ignoring). */
  type Acc = (ParamsValue, u16, bool)

  const START: Acc := (EMPTY_PARAMS, 0, false)

  /** `ParamByte` over every byte of `s`, in order, starting from `acc`. */
  function ParamsAfter(acc: Acc, s: seq<u8>): (r: Acc)
    requires acc.0.Valid()
    ensures r.0.Valid()
    decreases |s|
  {
    if |s| == 0 then acc
    else ParamsAfter(ParamByte(acc.0, acc.1, acc.2, s[0]), s[1..])
  }

  /** One more byte at the end is one more `ParamByte`. */
  lemma {:induction false} ParamsAfterSnoc(acc: Acc, s: seq<u8>, b: u8)
    requires acc.0.Valid()
    ensures ParamsAfter(acc, s + [b]) ==
      ParamByte(ParamsAfter(acc, s).0, ParamsAfter(acc, s).1, ParamsAfter(acc, s).2, b)
    decreases |s|
  {
    if |s| == 0 {
      assert s + [b] == [b];
      assert [b][1..] == [];
    } else {
      assert (s + [b])[0] == s[0];
      assert (s + [b])[1..] == s[1..] + [b];
      ParamsAfterSnoc(ParamByte(acc.0, acc.1, acc.2, s[0]), s[1..], b);
    }
  }

  /**
   * What the accumulator holds after a parameter string `s`. While at most
   * 16 parameters have begun, the finished ones are stored, the current one
   * holds its finished sub-parameters (at most 32) and `subparam` the value
   * being read. Once a 17th has begun, 16 are stored and any byte after the
   * 16th separator has set `ignoring`.
   */
  ghost predicate AccInv(s: seq<u8>, acc: Acc)
    requires ParamString(s)
  {
    var fs := Fields(s);
    var n := |fs|;
    if n <= MAX_PARAMS then
      var gs := Subfields(fs[n - 1]);
      var m := |gs|;
      acc.0.done == AllSubparams(fs[..n - 1])
      && acc.0.current == Take(SatDecimals(gs[..m - 1]), MAX_SUBPARAMS)
      && acc.1 == SatDecimal(gs[m - 1])
      && !acc.2
    else
      acc.0.done == AllSubparams(fs[..MAX_PARAMS])
      && acc.0.current == []
      && acc.1 == 0
      && acc.2 == (n > MAX_PARAMS + 1 || |fs[MAX_PARAMS]| > 0)
  }

  lemma SplitSnoc(s: seq<u8>, b: u8, sep: u8)
    ensures Split(s + [b], sep) ==
      if b == sep then Split(s, sep) + [[]]
      else Split(s, sep)[..|Split(s, sep)| - 1] + [Split(s, sep)[|Split(s, sep)| - 1] + [b]]
  {
    assert (s + [b])[..|s|] == s;
  }

  /** Reading one more digit saturates exactly as the unbounded value would. */
  lemma SatStep(g: seq<u8>, d: u8)
    requires AllDigits(g) && IsDigit(d)
    ensures AllDigits(g + [d])
    ensures SatDecimal(g + [d]) == SaturatingAddU16(SaturatingMulU16(SatDecimal(g), 10), DigitValue(d))
  {
    DecimalSnoc(0, g, d);
  }

  lemma TakeSnoc<T>(xs: seq<T>, x: T, n: nat)
    ensures Take(xs + [x], n) == if |xs| >= n then Take(xs, n) else Take(xs, n) + [x]
  {
    if |xs| >= n {
      assert (xs + [x])[..n] == xs[..n];
    }
  }

  lemma SatDecimalsSnoc(gs: seq<seq<u8>>)
    requires |gs| > 0 && forall i :: 0 <= i < |gs| ==> AllDigits(gs[i])
    ensures SatDecimals(gs) == SatDecimals(gs[..|gs| - 1]) + [SatDecimal(gs[|gs| - 1])]
  {
  }

  lemma AllSubparamsSnoc(fs: seq<seq<u8>>)
    requires |fs| > 0 && forall i :: 0 <= i < |fs| ==> ParamField(fs[i])
    ensures AllSubparams(fs) == AllSubparams(fs[..|fs| - 1]) + [Subparams(fs[|fs| - 1])]
  {
  }

  /** The current parameter closed: its sub-parameters, with the value being read as the last. */
  lemma CloseCurrent(s: seq<u8>, acc: Acc)
    requires ParamString(s) && acc.0.Valid() && AccInv(s, acc) && |Fields(s)| <= MAX_PARAMS
    ensures !acc.0.IsFull()
    ensures PushSubparamValue(acc.0, acc.1).current == Subparams(Fields(s)[|Fields(s)| - 1])
    ensures PushSubparamValue(acc.0, acc.1).done == acc.0.done
  {
    var fs := Fields(s);
    var gs := Subfields(fs[|fs| - 1]);
    SatDecimalsSnoc(gs);
    TakeSnoc(SatDecimals(gs[..|gs| - 1]), SatDecimal(gs[|gs| - 1]), MAX_SUBPARAMS);
  }

  lemma AccSeparator(s: seq<u8>, acc: Acc)
    requires ParamString(s) && ParamString(s + [PARAM_SEPARATOR])
    requires acc.0.Valid() && AccInv(s, acc) && |Fields(s)| <= MAX_PARAMS
    ensures AccInv(s + [PARAM_SEPARATOR], ParamByte(acc.0, acc.1, acc.2, PARAM_SEPARATOR))
  {
    var fs := Fields(s);
    CloseCurrent(s, acc);
    SplitSnoc(s, PARAM_SEPARATOR, PARAM_SEPARATOR);
    var fs' := Fields(s + [PARAM_SEPARATOR]);
    assert fs' == fs + [[]];
    assert fs'[..|fs|] == fs;
    AllSubparamsSnoc(fs);
    var r := ParamByte(acc.0, acc.1, acc.2, PARAM_SEPARATOR);
    assert r.0.done == AllSubparams(fs);
    assert r.0.current == [] && r.1 == 0 && !r.2;
    if |fs'| <= MAX_PARAMS {
      assert Subfields(fs'[|fs'| - 1]) == [[]];
    }
  }

  lemma AccSubparamSeparator(s: seq<u8>, acc: Acc)
    requires ParamString(s) && ParamString(s + [SUBPARAM_SEPARATOR])
    requires acc.0.Valid() && AccInv(s, acc) && |Fields(s)| <= MAX_PARAMS
    ensures AccInv(s + [SUBPARAM_SEPARATOR], ParamByte(acc.0, acc.1, acc.2, SUBPARAM_SEPARATOR))
  {
    var fs := Fields(s);
    var n := |fs|;
    CloseCurrent(s, acc);
    SplitSnoc(s, SUBPARAM_SEPARATOR, PARAM_SEPARATOR);
    var fs' := Fields(s + [SUBPARAM_SEPARATOR]);
    assert fs' == fs[..n - 1] + [fs[n - 1] + [SUBPARAM_SEPARATOR]];
    assert fs'[..n - 1] == fs[..n - 1];
    var gs := Subfields(fs[n - 1]);
    SplitSnoc(fs[n - 1], SUBPARAM_SEPARATOR, SUBPARAM_SEPARATOR);
    var gs' := Subfields(fs'[n - 1]);
    assert gs' == gs + [[]];
    assert gs'[..|gs|] == gs;
  }

  /** A byte other than the separator extends the last piece of a split. */
  lemma LastPieceExtends(s: seq<u8>, b: u8, sep: u8)
    requires b != sep
    ensures var ps, ps' := Split(s, sep), Split(s + [b], sep);
      |ps'| == |ps| && ps'[..|ps| - 1] == ps[..|ps| - 1] && ps'[|ps| - 1] == ps[|ps| - 1] + [b]
  {
    var ps := Split(s, sep);
    SplitSnoc(s, b, sep);
    assert Split(s + [b], sep)[..|ps| - 1] == ps[..|ps| - 1];
  }

  /** A digit extends the value being read of the last sub-parameter of the last parameter. */
  lemma DigitFields(s: seq<u8>, d: u8)
    requires IsDigit(d) && ParamString(s) && ParamString(s + [d])
    ensures var fs, fs' := Fields(s), Fields(s + [d]);
      var gs, gs' := Subfields(fs[|fs| - 1]), Subfields(fs'[|fs'| - 1]);
      |fs'| == |fs| && fs'[..|fs| - 1] == fs[..|fs| - 1]
      && |gs'| == |gs| && gs'[..|gs| - 1] == gs[..|gs| - 1] && gs'[|gs| - 1] == gs[|gs| - 1] + [d]
  {
    var fs := Fields(s);
    LastPieceExtends(s, d, PARAM_SEPARATOR);
    LastPieceExtends(fs[|fs| - 1], d, SUBPARAM_SEPARATOR);
  }

  lemma AccDigit(s: seq<u8>, acc: Acc, d: u8)
    requires IsDigit(d) && ParamString(s) && ParamString(s + [d])
    requires acc.0.Valid() && AccInv(s, acc) && |Fields(s)| <= MAX_PARAMS
    ensures AccInv(s + [d], ParamByte(acc.0, acc.1, acc.2, d))
  {
    var fs := Fields(s);
    var gs := Subfields(fs[|fs| - 1]);
    DigitFields(s, d);
    SatStep(gs[|gs| - 1], d);
    assert !acc.0.IsFull();
  }

  lemma AccOverflow(s: seq<u8>, acc: Acc, b: u8)
    requires ParamString(s) && ParamString(s + [b])
    requires acc.0.Valid() && AccInv(s, acc) && |Fields(s)| > MAX_PARAMS
    ensures AccInv(s + [b], ParamByte(acc.0, acc.1, acc.2, b))
  {
    var fs := Fields(s);
    var n := |fs|;
    SplitSnoc(s, b, PARAM_SEPARATOR);
    var fs' := Fields(s + [b]);
    assert fs'[..MAX_PARAMS] == fs[..MAX_PARAMS];
    if b != PARAM_SEPARATOR {
      assert fs'[n - 1] == fs[n - 1] + [b];
    }
  }

  /** One byte of a parameter string keeps the accumulator invariant. */
  lemma AccStep(s: seq<u8>, acc: Acc, b: u8)
    requires IsParamByte(b) && ParamString(s) && ParamString(s + [b])
    requires acc.0.Valid() && AccInv(s, acc)
    ensures AccInv(s + [b], ParamByte(acc.0, acc.1, acc.2, b))
  {
    if |Fields(s)| > MAX_PARAMS {
      AccOverflow(s, acc, b);
    } else if b == PARAM_SEPARATOR {
      AccSeparator(s, acc);
    } else if b == SUBPARAM_SEPARATOR {
      AccSubparamSeparator(s, acc);
    } else {
      AccDigit(s, acc, b);
    }
  }

  /** The accumulator invariant holds after every parameter string. */
  lemma {:induction false} ParamsAfterInv(s: seq<u8>)
    requires ParamString(s)
    ensures AccInv(s, ParamsAfter(START, s))
    decreases |s|
  {
    if |s| == 0 {
      assert Fields(s) == [[]];
      assert Subfields([]) == [[]];
    } else {
      var init := s[..|s| - 1];
      ParamsAfterInv(init);
      assert init + [s[|s| - 1]] == s;
      ParamsAfterSnoc(START, init, s[|s| - 1]);
      AccStep(init, ParamsAfter(START, init), s[|s| - 1]);
    }
  }

  /** Closing the parameters at the final byte yields the reference. */
  lemma FinishIsReference(s: seq<u8>, acc: Acc)
    requires ParamString(s) && acc.0.Valid() && AccInv(s, acc)
    ensures FinishParams(acc.0, acc.1, acc.2).0.done == Reference(s).0
    ensures FinishParams(acc.0, acc.1, acc.2).1 == Reference(s).1
  {
    if |Fields(s)| <= MAX_PARAMS {
      FinishWithinLimit(s, acc);
    } else {
      FinishOverLimit(s, acc);
    }
  }

  lemma FinishWithinLimit(s: seq<u8>, acc: Acc)
    requires ParamString(s) && acc.0.Valid() && AccInv(s, acc) && |Fields(s)| <= MAX_PARAMS
    ensures FinishParams(acc.0, acc.1, acc.2).0.done == Reference(s).0
    ensures FinishParams(acc.0, acc.1, acc.2).1 == Reference(s).1
  {
    CloseCurrent(s, acc);
    AllSubparamsSnoc(Fields(s));
  }

  lemma FinishOverLimit(s: seq<u8>, acc: Acc)
    requires ParamString(s) && acc.0.Valid() && AccInv(s, acc) && |Fields(s)| > MAX_PARAMS
    ensures FinishParams(acc.0, acc.1, acc.2).0.done == Reference(s).0
    ensures FinishParams(acc.0, acc.1, acc.2).1 == Reference(s).1
  {
    var fs := Fields(s);
    assert AllSubparams(fs)[..MAX_PARAMS] == AllSubparams(fs[..MAX_PARAMS]);
  }

  /** The ECMA-48 reading of a parameter string is what the parser's accumulator dispatches. */
  lemma ParamsMatchReference(s: seq<u8>)
    requires ParamString(s)
    ensures var acc := ParamsAfter(START, s);
      FinishParams(acc.0, acc.1, acc.2).0.done == Reference(s).0
      && FinishParams(acc.0, acc.1, acc.2).1 == Reference(s).1
  {
    ParamsAfterInv(s);
    FinishIsReference(s, ParamsAfter(START, s));
  }

  predicate InCsiParams(q: PState)
  {
    q.state == CsiEntry || q.state == CsiParam
  }

  /** The parser with its accumulator replaced. */
  function WithAcc(q: PState, acc: Acc): (r: PState)
    ensures r.params == acc.0 && r.subparam == acc.1 && r.ignoring == acc.2
    ensures r.state == q.state && r.intermediates == q.intermediates && r.osc == q.osc
  {
    q.(params := acc.0, subparam := acc.1, ignoring := acc.2)
  }

  function AccOf(q: PState): Acc
  {
    (q.params, q.subparam, q.ignoring)
  }

  /** A parameter byte after `CSI` runs `Param` and leaves the parser collecting parameters. */
  lemma ParamByteStep(q: PState, b: u8)
    requires q.Valid() && InCsiParams(q) && IsParamByte(b)
    ensures AdvanceSequence(q, b) ==
      (WithAcc(q, ParamByte(q.params, q.subparam, q.ignoring, b)).(state := CsiParam), [])
  {
    var q2 := WithAcc(q, ParamByte(q.params, q.subparam, q.ignoring, b));
    assert ExecuteAction(q, Action.Param, b) == (q2, []);
    if q.state == CsiEntry {
      assert Transition(q.state, b) == Some((CsiParam, Some(Action.Param)));
      assert ExitAction(q, b) == (q, []);
      assert EntryAction(q2.(state := CsiParam), b) == (q2.(state := CsiParam), []);
      assert StateChange(q, CsiParam, Some(Action.Param), b) == (q2.(state := CsiParam), [] + [] + []);
      assert StateChange(q, CsiParam, Some(Action.Param), b).1 == [];
      assert AdvanceSequence(q, b) == StateChange(q, CsiParam, Some(Action.Param), b);
    } else {
      assert Transition(q.state, b) == Some((Anywhere, Some(Action.Param)));
      assert q2.(state := CsiParam) == q2;
    }
  }

  /** A parameter string moves the accumulator as `ParamsAfter` says and calls nothing. */
  lemma {:induction false} FeedParamString(q: PState, s: seq<u8>)
    requires q.Valid() && InCsiParams(q) && ParamString(s)
    ensures Feed(q, s).1 == []
    ensures Feed(q, s).0 ==
      WithAcc(q, ParamsAfter(AccOf(q), s)).(state := if |s| == 0 then q.state else CsiParam)
    decreases |s|
  {
    if |s| > 0 {
      ParamByteStep(q, s[0]);
      var q1 := AdvanceSequence(q, s[0]).0;
      FeedParamString(q1, s[1..]);
      assert AccOf(q1) == ParamByte(q.params, q.subparam, q.ignoring, s[0]);
      assert ParamsAfter(AccOf(q), s) == ParamsAfter(AccOf(q1), s[1..]);
      assert Feed(q, s).1 == [] + Feed(q1, s[1..]).1;
    }
  }

  /** A final byte dispatches the closed parameters and returns to the ground state. */
  lemma FinalByteStep(q: PState, f: u8)
    requires q.Valid() && InCsiParams(q) && 0x40 <= f <= 0x7E
    ensures var fp := FinishParams(q.params, q.subparam, q.ignoring);
      AdvanceSequence(q, f) ==
        (q.(state := Ground, params := fp.0, ignoring := fp.1),
         [E.CsiDispatch(fp.0.done, q.intermediates, fp.1, ByteChar(f))])
  {
    CsiFinalByte(q.state, f);
    var fp := FinishParams(q.params, q.subparam, q.ignoring);
    var q2 := q.(params := fp.0, ignoring := fp.1);
    var call := E.CsiDispatch(fp.0.done, q.intermediates, fp.1, ByteChar(f));
    assert ExitAction(q, f) == (q, []);
    assert ExecuteAction(q, CsiDispatch, f) == (q2, [call]);
    assert EntryAction(q2.(state := Ground), f) == (q2.(state := Ground), []);
    assert StateChange(q, Ground, Some(CsiDispatch), f) == (q2.(state := Ground), [] + [call] + []);
    assert AdvanceSequence(q, f) == StateChange(q, Ground, Some(CsiDispatch), f);
    assert [] + [call] + [] == [call];
  }

  /** `ESC [` from the ground state enters `CsiEntry` with a cleared accumulator. */
  lemma CsiIntroducer(p: PState)
    requires p.Valid() && p.state == Ground
    ensures Feed(p, [C0.ESC, 0x5B]).1 == []
    ensures Feed(p, [C0.ESC, 0x5B]).0 ==
      p.(state := CsiEntry, params := EMPTY_PARAMS, subparam := 0, ignoring := false, intermediates := [])
  {
    EscapeCancels(p);
    var cleared := Cleared(p);
    var q := cleared.(state := Escape);
    assert Transition(Escape, 0x5B) == Some((CsiEntry, None));
    assert ExitAction(q, 0x5B) == (q, []);
    assert EntryAction(q.(state := CsiEntry), 0x5B) == (cleared.(state := CsiEntry), []);
    assert StateChange(q, CsiEntry, None, 0x5B) == (cleared.(state := CsiEntry), [] + [] + []);
    assert AdvanceSequence(q, 0x5B) == (cleared.(state := CsiEntry), []);
    assert [C0.ESC, 0x5B][1..] == [0x5B];
    FeedOne(q, 0x5B);
  }

  /**
   * A whole control sequence `ESC [ s f` from the ground state, with `s` a
   * parameter string and `f` a final byte, makes exactly one `csi_dispatch`
   * call: with the ECMA-48 reading of `s`, no intermediates, the reference's
   * `ignore` flag and `f`; and the parser is back in the ground state.
   */
  lemma CsiDispatchesReference(p: PState, s: seq<u8>, f: u8)
    requires p.Valid() && p.state == Ground && ParamString(s) && 0x40 <= f <= 0x7E
    ensures Advance(p, [C0.ESC, 0x5B] + s + [f]).1 ==
      [E.CsiDispatch(Reference(s).0, [], Reference(s).1, ByteChar(f))]
    ensures Advance(p, [C0.ESC, 0x5B] + s + [f]).0.state == Ground
  {
    var intro: seq<u8> := [C0.ESC, 0x5B];
    var bytes := intro + s + [f];
    assert SevenBitWithoutNak(bytes) by {
      forall i | 0 <= i < |bytes|
        ensures bytes[i] < 0x80 && bytes[i] != C0.NAK
      {
        if i >= 2 && i < |bytes| - 1 {
          assert bytes[i] == s[i - 2];
        }
      }
    }
    AdvanceIsFeed(p, bytes);
    FeedAppend(p, intro + s, [f]);
    FeedAppend(p, intro, s);
    CsiIntroducer(p);
    var q0 := Feed(p, intro).0;
    assert AccOf(q0) == START;
    FeedParamString(q0, s);
    var q1 := Feed(q0, s).0;
    assert q1.intermediates == [] && InCsiParams(q1);
    assert AccOf(q1) == ParamsAfter(START, s);
    FeedOne(q1, f);
    FinalByteStep(q1, f);
    ParamsMatchReference(s);
    var call := E.CsiDispatch(Reference(s).0, [], Reference(s).1, ByteChar(f));
    assert Feed(q1, [f]).1 == [call];
    assert Feed(p, intro + s).1 == [];
    assert Feed(p, bytes).1 == [] + [call];
  }

  /** Without a separator there is one piece: the whole string. */
  lemma {:induction false} SplitNone(a: seq<u8>, sep: u8)
    requires forall i :: 0 <= i < |a| ==> a[i] != sep
    ensures Split(a, sep) == [a]
    decreases |a|
  {
    if |a| > 0 {
      SplitNone(a[..|a| - 1], sep);
      assert a[..|a| - 1] + [a[|a| - 1]] == a;
    }
  }

  /** A separator between two strings joins their splits. */
  lemma {:induction false} SplitJoin(a: seq<u8>, b: seq<u8>, sep: u8)
    ensures Split(a + [sep] + b, sep) == Split(a, sep) + Split(b, sep)
    decreases |b|
  {
    if |b| == 0 {
      assert a + [sep] + b == a + [sep];
      SplitSnoc(a, sep, sep);
    } else {
      var b', x := b[..|b| - 1], b[|b| - 1];
      SplitJoin(a, b', sep);
      var w := a + [sep] + b';
      assert a + [sep] + b == w + [x];
      assert b' + [x] == b;
      SplitSnoc(w, x, sep);
      SplitSnoc(b', x, sep);
      var l, r := Split(a, sep), Split(b', sep);
      if x == sep {
        assert (l + r) + [[]] == l + (r + [[]]);
      } else {
        ExtendLastAppend(l, r, x);
      }
    }
  }

  /** Extending the last piece of `l + r` extends the last piece of `r`. */
  lemma ExtendLastAppend(l: seq<seq<u8>>, r: seq<seq<u8>>, x: u8)
    requires |r| >= 1
    ensures (l + r)[..|l + r| - 1] + [(l + r)[|l + r| - 1] + [x]] == l + (r[..|r| - 1] + [r[|r| - 1] + [x]])
  {
    assert (l + r)[..|l + r| - 1] == l + r[..|r| - 1];
    assert (l + r)[|l + r| - 1] == r[|r| - 1];
  }

  /** A parameter without sub-parameters is its saturated value. */
  lemma NumberSubparams(f: seq<u8>)
    requires AllDigits(f)
    ensures ParamField(f) && Subparams(f) == [SatDecimal(f)]
  {
    SplitNone(f, SUBPARAM_SEPARATOR);
    assert SatDecimals([f]) == [SatDecimal(f)];
  }

  /** A number, a `:` and further sub-parameters: the number's value comes first. */
  lemma SubparamsJoin(a: seq<u8>, b: seq<u8>)
    requires AllDigits(a) && ParamField(b) && |Subparams(b)| < MAX_SUBPARAMS
    ensures ParamField(a + [SUBPARAM_SEPARATOR] + b)
    ensures Subparams(a + [SUBPARAM_SEPARATOR] + b) == [SatDecimal(a)] + Subparams(b)
  {
    var c := SUBPARAM_SEPARATOR;
    var f := a + [c] + b;
    assert ParamField(f) by {
      forall i | 0 <= i < |f|
        ensures IsDigit(f[i]) || f[i] == c
      {
        if i < |a| {
          assert f[i] == a[i];
        } else if i > |a| {
          assert f[i] == b[i - |a| - 1];
        }
      }
    }
    SplitJoin(a, b, c);
    SplitNone(a, c);
    var gb := Subfields(b);
    assert Subfields(f) == [a] + gb;
    assert SatDecimals([a] + gb) == [SatDecimal(a)] + SatDecimals(gb);
  }

  /** A parameter, a `;` and further parameters: the parameter's sub-parameters come first. */
  lemma ReferenceJoin(a: seq<u8>, b: seq<u8>)
    requires ParamField(a) && ParamString(b)
    ensures ParamString(a + [PARAM_SEPARATOR] + b)
    ensures Reference(a + [PARAM_SEPARATOR] + b).0 == Take([Subparams(a)] + AllSubparams(Fields(b)), MAX_PARAMS)
    ensures Reference(a + [PARAM_SEPARATOR] + b).1 == (|Fields(b)| >= MAX_PARAMS)
  {
    var c := PARAM_SEPARATOR;
    var s := a + [c] + b;
    assert ParamString(s) by {
      forall i | 0 <= i < |s|
        ensures IsParamByte(s[i])
      {
        if i < |a| {
          assert s[i] == a[i];
        } else if i > |a| {
          assert s[i] == b[i - |a| - 1];
        }
      }
    }
    SplitJoin(a, b, c);
    SplitNone(a, c);
    assert Fields(s) == [a] + Fields(b);
    assert AllSubparams([a] + Fields(b)) == [Subparams(a)] + AllSubparams(Fields(b));
  }

  /** A single parameter. */
  lemma ReferenceOfField(a: seq<u8>)
    requires ParamField(a)
    ensures ParamString(a) && Reference(a) == ([Subparams(a)], false)
  {
    SplitNone(a, PARAM_SEPARATOR);
    assert AllSubparams([a]) == [Subparams(a)];
  }

  lemma EmptyParam()
    ensures ParamField([]) && Fields([]) == [[]] && Subparams([]) == [0]
    ensures AllSubparams([[]]) == [[0]]
  {
    NumberSubparams([]);
  }

  /** `4 ;`: a trailing separator ends an empty, zero parameter. */
  lemma TrailingSeparator()
    ensures ParamString([0x34, 0x3B]) && Reference([0x34, 0x3B]) == ([[4], [0]], false)
  {
    NumberSubparams([0x34]);
    EmptyParam();
    assert SatDecimal([0x34]) == 4;
    ReferenceJoin([0x34], []);
    assert [0x34] + [PARAM_SEPARATOR] + [] == [0x34, 0x3B];
    assert Take([Subparams([0x34])] + AllSubparams(Fields([])), MAX_PARAMS) == [[4], [0]];
  }

  /** `; 4`: a leading separator ends an empty, zero parameter. */
  lemma LeadingSeparator()
    ensures ParamString([0x3B, 0x34]) && Reference([0x3B, 0x34]) == ([[0], [4]], false)
  {
    NumberSubparams([0x34]);
    EmptyParam();
    ReferenceOfField([0x34]);
    assert AllSubparams(Fields([0x34])) == [[4]];
    assert SatDecimal([0x34]) == 4;
    ReferenceJoin([], [0x34]);
    assert [] + [PARAM_SEPARATOR] + [0x34] == [0x3B, 0x34];
    assert Take([Subparams([])] + AllSubparams(Fields([0x34])), MAX_PARAMS) == [[0], [4]];
  }

  /** `38:2:255:0:255`, the sub-parameters of a direct colour. */
  const COLOUR: seq<u8> := [0x33, 0x38, 0x3A, 0x32, 0x3A, 0x32, 0x35, 0x35, 0x3A, 0x30, 0x3A, 0x32, 0x35, 0x35]

  lemma ColourPieces()
    ensures [0x33, 0x38] + [SUBPARAM_SEPARATOR] + ([0x32] + [SUBPARAM_SEPARATOR]
      + ([0x32, 0x35, 0x35] + [SUBPARAM_SEPARATOR] + ([0x30] + [SUBPARAM_SEPARATOR] + [0x32, 0x35, 0x35]))) == COLOUR
  {
  }

  lemma ColourValues()
    ensures AllDigits([0x33, 0x38]) && SatDecimal([0x33, 0x38]) == 38
    ensures AllDigits([0x32]) && SatDecimal([0x32]) == 2
    ensures AllDigits([0x32, 0x35, 0x35]) && SatDecimal([0x32, 0x35, 0x35]) == 255
    ensures AllDigits([0x30]) && SatDecimal([0x30]) == 0
  {
  }

  lemma ColourSubparams()
    ensures ParamField(COLOUR) && Subparams(COLOUR) == [38, 2, 255, 0, 255]
  {
    var c := SUBPARAM_SEPARATOR;
    var n38: seq<u8> := [0x33, 0x38];
    var n2: seq<u8> := [0x32];
    var n255: seq<u8> := [0x32, 0x35, 0x35];
    var n0: seq<u8> := [0x30];
    ColourValues();
    NumberSubparams(n255);
    var f1 := n0 + [c] + n255;
    SubparamsJoin(n0, n255);
    var f2 := n255 + [c] + f1;
    SubparamsJoin(n255, f1);
    var f3 := n2 + [c] + f2;
    SubparamsJoin(n2, f2);
    SubparamsJoin(n38, f3);
    ColourPieces();
  }

  /** `38:2:255:0:255;1`: a parameter with sub-parameters, then a plain one. */
  lemma Subparameters()
    ensures ParamString(COLOUR + [PARAM_SEPARATOR, 0x31])
    ensures Reference(COLOUR + [PARAM_SEPARATOR, 0x31]) == ([[38, 2, 255, 0, 255], [1]], false)
  {
    var n1: seq<u8> := [0x31];
    ColourSubparams();
    NumberSubparams(n1);
    assert SatDecimal(n1) == 1;
    SplitNone(n1, PARAM_SEPARATOR);
    assert AllSubparams(Fields(n1)) == [[1]];
    ReferenceJoin(COLOUR, n1);
    assert COLOUR + [PARAM_SEPARATOR] + n1 == COLOUR + [PARAM_SEPARATOR, 0x31];
    assert Take([Subparams(COLOUR)] + AllSubparams(Fields(n1)), MAX_PARAMS) == [[38, 2, 255, 0, 255], [1]];
  }

  lemma {:induction false} DecimalFromAppend(acc: nat, a: seq<u8>, b: seq<u8>)
    requires AllDigits(a) && AllDigits(b)
    ensures AllDigits(a + b) && DecimalFrom(acc, a + b) == DecimalFrom(DecimalFrom(acc, a), b)
    decreases |a|
  {
    assert AllDigits(a + b) by {
      forall i | 0 <= i < |a + b| ensures IsDigit((a + b)[i]) {
        if i < |a| { assert (a + b)[i] == a[i]; } else { assert (a + b)[i] == b[i - |a|]; }
      }
    }
    if |a| == 0 {
      assert a + b == b;
    } else {
      assert (a + b)[0] == a[0];
      assert (a + b)[1..] == a[1..] + b;
      DecimalFromAppend(10 * acc + (a[0] - 0x30), a[1..], b);
    }
  }

  lemma {:induction false} DecimalFromAtLeast(acc: nat, s: seq<u8>)
    requires AllDigits(s)
    ensures DecimalFrom(acc, s) >= acc
    decreases |s|
  {
    if |s| > 0 {
      DecimalFromAtLeast(10 * acc + (s[0] - 0x30), s[1..]);
    }
  }

  /** `9223372036854775808`, one more than the largest signed 64-bit integer. */
  const LONG_HIGH: seq<u8> := [0x39, 0x32, 0x32, 0x33, 0x33, 0x37]
  const LONG_LOW: seq<u8> := [0x32, 0x30, 0x33, 0x36, 0x38, 0x35, 0x34, 0x37, 0x37, 0x35, 0x38, 0x30, 0x38]
  const LONG_PARAM: seq<u8> := LONG_HIGH + LONG_LOW

  lemma LongParamPieces()
    ensures AllDigits(LONG_HIGH) && AllDigits(LONG_LOW)
    ensures DecimalFrom(0, LONG_HIGH) == 922337
  {
  }

  /** Appending digits never makes a value smaller. */
  lemma DecimalAppendAtLeast(high: seq<u8>, low: seq<u8>)
    requires AllDigits(high) && AllDigits(low)
    ensures AllDigits(high + low) && Decimal(high + low) >= Decimal(high)
  {
    DecimalFromAppend(0, high, low);
    DecimalFromAtLeast(DecimalFrom(0, high), low);
  }

  /** A value too large for 16 bits saturates at 65535. */
  lemma LongParam()
    ensures ParamString(LONG_PARAM) && Reference(LONG_PARAM) == ([[U16_MAX]], false)
  {
    LongParamPieces();
    DecimalAppendAtLeast(LONG_HIGH, LONG_LOW);
    assert SatDecimal(LONG_PARAM) == U16_MAX;
    NumberSubparams(LONG_PARAM);
    ReferenceOfField(LONG_PARAM);
  }

  /** `n` copies of `x`. */
  function Repeat<T>(n: nat, x: T): (r: seq<T>)
    ensures |r| == n && forall i :: 0 <= i < n ==> r[i] == x
  {
    if n == 0 then [] else [x] + Repeat(n - 1, x)
  }

  /** `1;` repeated `k` times. */
  function Ones(k: nat): (s: seq<u8>)
    ensures |s| == 2 * k
  {
    if k == 0 then [] else [0x31, PARAM_SEPARATOR] + Ones(k - 1)
  }

  lemma OnesFields(k: nat)
    requires k > 0 && ParamString(Ones(k - 1))
    ensures ParamString(Ones(k)) && Fields(Ones(k)) == [[0x31]] + Fields(Ones(k - 1))
    ensures Subparams([0x31]) == [1]
  {
    var one: seq<u8> := [0x31];
    assert Ones(k) == one + [PARAM_SEPARATOR] + Ones(k - 1);
    NumberSubparams(one);
    assert SatDecimal(one) == 1;
    ReferenceJoin(one, Ones(k - 1));
    SplitJoin(one, Ones(k - 1), PARAM_SEPARATOR);
    SplitNone(one, PARAM_SEPARATOR);
  }

  /** `1;` repeated `k` times is `k` parameters of value 1 and a last, empty one. */
  lemma {:induction false} OnesParams(k: nat)
    ensures ParamString(Ones(k)) && |Fields(Ones(k))| == k + 1
    ensures AllSubparams(Fields(Ones(k))) == Repeat<seq<u16>>(k, [1]) + [[0]]
  {
    if k == 0 {
      EmptyParam();
    } else {
      OnesParams(k - 1);
      OnesFields(k);
      AllSubparamsCons([0x31], Fields(Ones(k - 1)));
      RepeatCons<seq<u16>>(k, [1], [[0]]);
    }
  }

  /** The reference of `1;` repeated `k` times: the first sixteen of its parameters, `ignore` once there are more. */
  lemma OnesReference(k: nat)
    ensures ParamString(Ones(k))
    ensures Reference(Ones(k)) == (Take<seq<u16>>(Repeat<seq<u16>>(k, [1]) + [[0]], MAX_PARAMS), k >= MAX_PARAMS)
  {
    OnesParams(k);
  }

  lemma AllSubparamsCons(f: seq<u8>, rest: seq<seq<u8>>)
    requires ParamField(f) && forall i :: 0 <= i < |rest| ==> ParamField(rest[i])
    ensures forall i :: 0 <= i < |[f] + rest| ==> ParamField(([f] + rest)[i])
    ensures AllSubparams([f] + rest) == [Subparams(f)] + AllSubparams(rest)
  {
    assert forall i :: 0 <= i < |[f] + rest| ==> ([f] + rest)[i] == if i == 0 then f else rest[i - 1];
  }

  lemma RepeatCons<T>(k: nat, x: T, tail: seq<T>)
    requires k > 0
    ensures Repeat<T>(k, x) + tail == [x] + (Repeat<T>(k - 1, x) + tail)
  {
  }

  /** Fifteen `1;` make sixteen parameters, the last one empty: all are kept and nothing is ignored. */
  lemma MaxParams()
    ensures ParamString(Ones(MAX_PARAMS - 1))
    ensures Reference(Ones(MAX_PARAMS - 1)) == (Repeat<seq<u16>>(MAX_PARAMS - 1, [1]) + [[0]], false)
  {
    OnesParams(MAX_PARAMS - 1);
  }

  /** Sixteen `1;` begin a seventeenth parameter: sixteen are kept and `ignore` is set. */
  lemma TooManyParams()
    ensures ParamString(Ones(MAX_PARAMS))
    ensures Reference(Ones(MAX_PARAMS)) == (Repeat<seq<u16>>(MAX_PARAMS, [1]), true)
  {
    OnesParams(MAX_PARAMS);
    assert (Repeat<seq<u16>>(MAX_PARAMS, [1]) + [[0]])[..MAX_PARAMS] == Repeat<seq<u16>>(MAX_PARAMS, [1]);
  }

  /** A run of separators splits into one more empty piece than it has separators. */
  lemma {:induction false} SplitOfSeparators(k: nat, sep: u8)
    ensures Split(Repeat(k, sep), sep) == Repeat(k + 1, [])
  {
    if k > 0 {
      SplitOfSeparators(k - 1, sep);
      assert Repeat(k, sep) == Repeat(k - 1, sep) + [sep];
      SplitSnoc(Repeat(k - 1, sep), sep, sep);
      var none: seq<u8> := [];
      assert Repeat(k + 1, none) == Repeat(k, none) + [none];
    }
  }

  /**
   * `m` colons then sixteen `;`: the first parameter keeps at most 32 of its
   * `m + 1` empty sub-parameters, fifteen empty parameters follow, and the
   * seventeenth sets `ignore`.
   */
  lemma SubparamsFillBuffer(m: nat)
    ensures ParamString(Repeat(m, SUBPARAM_SEPARATOR) + Repeat(MAX_PARAMS, PARAM_SEPARATOR))
    ensures Reference(Repeat(m, SUBPARAM_SEPARATOR) + Repeat(MAX_PARAMS, PARAM_SEPARATOR))
      == ([Take<u16>(Repeat<u16>(m + 1, 0), MAX_SUBPARAMS)] + Repeat<seq<u16>>(MAX_PARAMS - 1, [0]), true)
  {
    var colons := Repeat(m, SUBPARAM_SEPARATOR);
    var semis := Repeat(MAX_PARAMS - 1, PARAM_SEPARATOR);
    assert colons + Repeat(MAX_PARAMS, PARAM_SEPARATOR) == colons + [PARAM_SEPARATOR] + semis;
    ColonsParam(m);
    SemisParams();
    ReferenceJoin(colons, semis);
    assert Take([Subparams(colons)] + AllSubparams(Fields(semis)), MAX_PARAMS)
      == [Subparams(colons)] + Repeat<seq<u16>>(MAX_PARAMS - 1, [0]);
    assert Reference(colons + [PARAM_SEPARATOR] + semis).1;
  }

  /** `m` colons are one parameter field of `m + 1` empty sub-parameters, of which 32 are kept. */
  lemma ColonsParam(m: nat)
    ensures ParamField(Repeat(m, SUBPARAM_SEPARATOR))
    ensures Subparams(Repeat(m, SUBPARAM_SEPARATOR)) == Take<u16>(Repeat<u16>(m + 1, 0), MAX_SUBPARAMS)
  {
    var colons := Repeat(m, SUBPARAM_SEPARATOR);
    SplitOfSeparators(m, SUBPARAM_SEPARATOR);
    var none: seq<u8> := [];
    var empties := Repeat(m + 1, none);
    assert Subfields(colons) == empties;
    assert SatDecimals(empties) == Repeat<u16>(m + 1, 0);
  }

  /** Fifteen `;` are sixteen empty parameters, each the single sub-parameter 0. */
  lemma SemisParams()
    ensures ParamString(Repeat(MAX_PARAMS - 1, PARAM_SEPARATOR))
    ensures AllSubparams(Fields(Repeat(MAX_PARAMS - 1, PARAM_SEPARATOR))) == Repeat<seq<u16>>(MAX_PARAMS, [0])
  {
    var semis := Repeat(MAX_PARAMS - 1, PARAM_SEPARATOR);
    SplitOfSeparators(MAX_PARAMS - 1, PARAM_SEPARATOR);
    var none: seq<u8> := [];
    assert ParamString(semis);
    assert Fields(semis) == Repeat(MAX_PARAMS, none);
    EmptyParam();
  }

  /** With thirty-two colons, as many as a parameter holds, all 32 sub-parameters are zero. */
  lemma FullSubparamBuffer()
    ensures Take<u16>(Repeat<u16>(MAX_SUBPARAMS + 1, 0), MAX_SUBPARAMS) == Repeat<u16>(MAX_SUBPARAMS, 0)
  {
  }

  /** `ESC [` followed by the parameter string and the final byte. */
  function Csi(s: seq<u8>, f: u8): (bytes: seq<u8>)
    ensures |bytes| == |s| + 3 && bytes[..2] == [C0.ESC, 0x5B] && bytes[|bytes| - 1] == f
  {
    [C0.ESC, 0x5B] + s + [f]
  }

  /** `CSI 4 ; m` dispatches the parameters 4 and 0. */
  lemma TrailingSeparatorDispatch()
    ensures Advance(INITIAL, Csi([0x34, 0x3B], 0x6D)).1 == [E.CsiDispatch([[4], [0]], [], false, 'm')]
  {
    TrailingSeparator();
    CsiDispatchesReference(INITIAL, [0x34, 0x3B], 0x6D);
  }

  /** `CSI ; 4 m` dispatches the parameters 0 and 4. */
  lemma LeadingSeparatorDispatch()
    ensures Advance(INITIAL, Csi([0x3B, 0x34], 0x6D)).1 == [E.CsiDispatch([[0], [4]], [], false, 'm')]
  {
    LeadingSeparator();
    CsiDispatchesReference(INITIAL, [0x3B, 0x34], 0x6D);
  }

  /** `CSI 38:2:255:0:255;1 m` dispatches a parameter with five sub-parameters, then 1. */
  lemma SubparametersDispatch()
    ensures Advance(INITIAL, Csi(COLOUR + [PARAM_SEPARATOR, 0x31], 0x6D)).1
      == [E.CsiDispatch([[38, 2, 255, 0, 255], [1]], [], false, 'm')]
    ensures Advance(INITIAL, Csi(COLOUR + [PARAM_SEPARATOR, 0x31], 0x6D)).0.state == Ground
  {
    Subparameters();
    CsiDispatchesReference(INITIAL, COLOUR + [PARAM_SEPARATOR, 0x31], 0x6D);
  }

  /** `CSI 9223372036854775808 m` dispatches the one parameter 65535. */
  lemma LongParamDispatch()
    ensures Advance(INITIAL, Csi(LONG_PARAM, 0x6D)).1 == [E.CsiDispatch([[U16_MAX]], [], false, 'm')]
  {
    LongParam();
    CsiDispatchesReference(INITIAL, LONG_PARAM, 0x6D);
  }

  /** `k` times `1;` then `p`: at most sixteen parameters, `ignore` once a seventeenth begins. */
  lemma OnesDispatch(k: nat)
    ensures Advance(INITIAL, Csi(Ones(k), 0x70)).1
      == [E.CsiDispatch(Take<seq<u16>>(Repeat<seq<u16>>(k, [1]) + [[0]], MAX_PARAMS), [], k >= MAX_PARAMS, 'p')]
  {
    OnesParams(k);
    var r := Reference(Ones(k));
    assert r == (Take<seq<u16>>(Repeat<seq<u16>>(k, [1]) + [[0]], MAX_PARAMS), k >= MAX_PARAMS);
    CsiDispatchesReference(INITIAL, Ones(k), 0x70);
    assert Advance(INITIAL, Csi(Ones(k), 0x70)).1 == [E.CsiDispatch(r.0, [], r.1, ByteChar(0x70))];
  }

  /** `m` colons and sixteen `;` then `x`: at most 32 zero sub-parameters, fifteen zeros, `ignore` set. */
  lemma SubparamsFillBufferDispatch(m: nat)
    ensures var s := Repeat(m, SUBPARAM_SEPARATOR) + Repeat(MAX_PARAMS, PARAM_SEPARATOR);
      Advance(INITIAL, Csi(s, 0x78)).1
        == [E.CsiDispatch([Take<u16>(Repeat<u16>(m + 1, 0), MAX_SUBPARAMS)] + Repeat<seq<u16>>(MAX_PARAMS - 1, [0]), [], true, 'x')]
    ensures Advance(INITIAL, Csi(Repeat(m, SUBPARAM_SEPARATOR) + Repeat(MAX_PARAMS, PARAM_SEPARATOR), 0x78)).0.state == Ground
  {
    SubparamsFillBuffer(m);
    var s := Repeat(m, SUBPARAM_SEPARATOR) + Repeat(MAX_PARAMS, PARAM_SEPARATOR);
    CsiDispatchesReference(INITIAL, s, 0x78);
  }
}
