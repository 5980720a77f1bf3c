/**
 * CSI and DCS parameters in the format of section 5.4.2 of ECMA-48: up to
 * 16 parameters, each a list of up to 32 sub-parameters (saiga_vte's
 * `param` module).
 */
module VteParams {
  import opened Common

  const MAX_PARAMS: nat := 16
  const MAX_SUBPARAMS: nat := 32
  const PARAM_SEPARATOR: u8 := 0x3B
  const SUBPARAM_SEPARATOR: u8 := 0x3A

  /**
   * `Param`: a fixed array of sub-parameters and the count in use. It is
   * stored by value inside `Params`, so it is modelled as a value whose
   * updates return the new value.
   */
  datatype Param = Param(subparams: seq<u16>, len: nat)
  {
    ghost predicate Valid()
    {
      |subparams| == MAX_SUBPARAMS && len <= MAX_SUBPARAMS
    }

    predicate IsFull()
    {
      len == MAX_SUBPARAMS
    }

    /** `to_slice`: the sub-parameters in use. */
    function ToSlice(): (r: seq<u16>)
      requires Valid()
      ensures |r| == len
    {
      subparams[..len]
    }

    /** `push`: appends while there is room, and does nothing when full. */
    function Push(subparam: u16): (r: Param)
      requires Valid()
      ensures r.Valid()
      ensures r.ToSlice() == if IsFull() then ToSlice() else ToSlice() + [subparam]
    {
      if IsFull() then this
      else
        var r := Param(subparams[len := subparam], len + 1);
        assert r.ToSlice() == ToSlice() + [subparam];
        r
    }

    /** `clear`: forgets the sub-parameters; the array keeps its old contents. */
    function Clear(): (r: Param)
      requires Valid()
      ensures r.Valid() && r.ToSlice() == [] && r.subparams == subparams
    {
      Param(subparams, 0)
    }
  }

  /** `Param::default`. */
  function DefaultParam(): (p: Param)
    ensures p.Valid() && p.ToSlice() == []
  {
    Param(seq(MAX_SUBPARAMS, _ => 0), 0)
  }

  /** `Param::from`: the one-element parameter. */
  function ParamFrom(subparam: u16): (p: Param)
    ensures p.Valid() && p.ToSlice() == [subparam]
  {
    DefaultParam().Push(subparam)
  }

  /** `ParamIter`: yields the sub-parameters of one `Param` in index order. */
  class ParamIter {
    const param: Param
    var index: nat

    ghost predicate Valid()
      reads this
    {
      param.Valid() && index <= param.len
    }

    /** The sub-parameters not yet yielded. */
    function Remaining(): (r: seq<u16>)
      requires Valid()
      reads this
      ensures |r| == param.len - index
    {
      param.ToSlice()[index..]
    }

    /** `ParamIter::new`. */
    constructor(param: Param)
      requires param.Valid()
      ensures Valid() && this.param == param && Remaining() == param.ToSlice()
    {
      this.param := param;
      index := 0;
    }

    /** `next`: the next sub-parameter, or None once all `len` have been yielded. */
    method Next() returns (r: Option<u16>)
      requires Valid()
      modifies this
      ensures Valid()
      ensures old(Remaining()) == [] ==> r.None? && Remaining() == []
      ensures old(Remaining()) != [] ==> r == Some(old(Remaining())[0]) && Remaining() == old(Remaining())[1..]
    {
      if index >= param.len {
        return None;
      }
      var subparam := param.subparams[index];
      index := index + 1;
      return Some(subparam);
    }

    /** `size_hint`: exact, the number of sub-parameters still to come. */
    function SizeHint(): (r: (nat, Option<nat>))
      requires Valid()
      reads this
      ensures r == (|Remaining()|, Some(|Remaining()|))
    {
      var remaining := param.len - index;
      (remaining, Some(remaining))
    }
  }

  /**
   * The observable content of a `Params`: the finished parameters and the
   * parameter being built in slot `len` (empty once all 16 are used).
   */
  datatype ParamsValue = ParamsValue(done: seq<seq<u16>>, current: seq<u16>)
  {
    ghost predicate Valid()
    {
      |done| <= MAX_PARAMS && |current| <= MAX_SUBPARAMS
      && (forall i :: 0 <= i < |done| ==> |done[i]| <= MAX_SUBPARAMS)
      && (|done| == MAX_PARAMS ==> current == [])
    }

    predicate IsFull()
    {
      |done| == MAX_PARAMS
    }
  }

  const EMPTY_PARAMS: ParamsValue := ParamsValue([], [])

  /** `push_subparam` on the value: appends to the current parameter unless it is full. */
  function PushSubparamValue(p: ParamsValue, subparam: u16): (r: ParamsValue)
    requires p.Valid() && !p.IsFull()
    ensures r.Valid() && r.done == p.done
  {
    if |p.current| == MAX_SUBPARAMS then p else p.(current := p.current + [subparam])
  }

  /** `next_param` on the value: closes the current parameter unless 16 are done. */
  function NextParamValue(p: ParamsValue): (r: ParamsValue)
    requires p.Valid()
    ensures r.Valid()
  {
    if p.IsFull() then p else ParamsValue(p.done + [p.current], [])
  }

  /** The sub-parameter lists of a sequence of parameters. */
  function ToSlices(ps: seq<Param>): (r: seq<seq<u16>>)
    requires forall i :: 0 <= i < |ps| ==> ps[i].Valid()
    ensures |r| == |ps|
    ensures forall i :: 0 <= i < |ps| ==> r[i] == ps[i].ToSlice()
  {
    seq(|ps|, i requires 0 <= i < |ps| => ps[i].ToSlice())
  }

  /** `Params`: 16 parameter slots and the number of finished ones. */
  class Params {
    const slots: array<Param>
    var len: nat

    ghost predicate Valid()
      reads this, slots
    {
      slots.Length == MAX_PARAMS && len <= MAX_PARAMS
      && (forall i :: 0 <= i < MAX_PARAMS ==> slots[i].Valid())
      && (forall i :: len < i < MAX_PARAMS ==> slots[i].len == 0)
    }

    /** What the parameter iteration shows: the first `len` slots. */
    function Done(): (r: seq<seq<u16>>)
      requires Valid()
      reads this, slots
      ensures |r| == len
    {
      ToSlices(slots[..len])
    }

    function Value(): (r: ParamsValue)
      requires Valid()
      reads this, slots
      ensures r.Valid()
    {
      ParamsValue(Done(), if len < MAX_PARAMS then slots[len].ToSlice() else [])
    }

    /** `Params::default`. */
    constructor()
      ensures Valid() && fresh(slots) && Value() == EMPTY_PARAMS
    {
      slots := new Param[MAX_PARAMS](_ => DefaultParam());
      len := 0;
    }

    /** `is_full`: all 16 parameters are finished. */
    function IsFull(): (r: bool)
      requires Valid()
      reads this, slots
      ensures r <==> Value().IsFull()
    {
      len == MAX_PARAMS
    }

    /** `clear`: empties every slot and the count. */
    method Clear()
      requires Valid()
      modifies this, slots
      ensures Valid() && Value() == EMPTY_PARAMS
      ensures len == 0 && forall i :: 0 <= i < MAX_PARAMS ==> slots[i].len == 0
    {
      var i := 0;
      while i < slots.Length
        invariant 0 <= i <= MAX_PARAMS
        invariant forall j :: 0 <= j < MAX_PARAMS ==> slots[j].Valid()
        invariant forall j :: 0 <= j < i ==> slots[j].len == 0
        invariant forall j :: i <= j < MAX_PARAMS ==> slots[j] == old(slots[j])
      {
        slots[i] := slots[i].Clear();
        i := i + 1;
      }
      len := 0;
    }

    /** `next_param`: closes the current parameter while fewer than 16 are finished. */
    method NextParam()
      requires Valid()
      modifies this
      ensures Valid() && Value() == NextParamValue(old(Value()))
      ensures len == if old(len) == MAX_PARAMS then old(len) else old(len) + 1
    {
      if IsFull() {
        return;
      }
      len := len + 1;
      assert Done() == old(Done()) + [slots[len - 1].ToSlice()];
    }

    /** `push_subparam`: appends to slot `len`, which must exist. */
    method PushSubparam(subparam: u16)
      requires Valid() && len < MAX_PARAMS
      modifies slots
      ensures Valid() && Value() == PushSubparamValue(old(Value()), subparam)
    {
      slots[len] := slots[len].Push(subparam);
      assert Done() == old(Done());
    }
  }

  /** `ParamsIter`: yields the first `len` parameters of a `Params` in index order. */
  class ParamsIter {
    const params: Params
    var index: nat

    ghost predicate Valid()
      reads this, params, params.slots
    {
      params.Valid() && index <= params.len
    }

    /** The parameters not yet yielded. */
    function Remaining(): (r: seq<Param>)
      requires Valid()
      reads this, params, params.slots
      ensures |r| == params.len - index
      ensures forall k :: 0 <= k < |r| ==> r[k].Valid()
    {
      params.slots[index..params.len]
    }

    constructor(params: Params)
      requires params.Valid()
      ensures Valid() && this.params == params && Remaining() == params.slots[..params.len]
    {
      this.params := params;
      index := 0;
    }

    /** `next`: the next parameter, or None once all `len` have been yielded. */
    method Next() returns (r: Option<Param>)
      requires Valid()
      modifies this
      ensures Valid()
      ensures old(Remaining()) == [] ==> r.None? && Remaining() == []
      ensures old(Remaining()) != [] ==> r == Some(old(Remaining())[0]) && Remaining() == old(Remaining())[1..]
      ensures r.None? <==> old(index) == params.len
      ensures r.None? ==> index == old(index)
      ensures r.Some? ==> index == old(index) + 1 && r.value == params.slots[old(index)]
    {
      if index >= params.len {
        return None;
      }
      var param := params.slots[index];
      index := index + 1;
      return Some(param);
    }

    /** `size_hint`: exact, the number of parameters still to come. */
    function SizeHint(): (r: (nat, Option<nat>))
      requires Valid()
      reads this, params, params.slots
      ensures r == (|Remaining()|, Some(|Remaining()|))
    {
      var remaining := params.len - index;
      (remaining, Some(remaining))
    }
  }

  /**
   * What an executor reads from `Params`: iterating it and taking
   * `to_slice` of each parameter gives exactly the finished parameters,
   * in order.
   */
  method CollectParams(params: Params) returns (r: seq<seq<u16>>)
    requires params.Valid()
    ensures r == params.Done()
  {
    var it := new ParamsIter(params);
    r := [];
    assert r + ToSlices(it.Remaining()) == params.Done();
    while true
      invariant it.Valid() && it.params == params
      invariant r + ToSlices(it.Remaining()) == params.Done()
      decreases params.len - it.index
    {
      ghost var before := it.Remaining();
      var next := it.Next();
      if next.None? {
        assert |before| == 0 && r + [] == r;
        break;
      }
      CollectStep(r, before, params.Done());
      r := r + [next.value.ToSlice()];
    }
  }

  /** One round of `CollectParams`: the next parameter's list moves to the collected ones. */
  lemma CollectStep(r: seq<seq<u16>>, ps: seq<Param>, done: seq<seq<u16>>)
    requires |ps| > 0 && forall k :: 0 <= k < |ps| ==> ps[k].Valid()
    requires r + ToSlices(ps) == done
    ensures (r + [ps[0].ToSlice()]) + ToSlices(ps[1..]) == done
  {
    ToSlicesCons(ps);
    Regroup(r, ps[0].ToSlice(), ToSlices(ps[1..]));
  }

  /** `ToSlices` from the front: the first parameter, then the rest. */
  lemma ToSlicesCons(ps: seq<Param>)
    requires |ps| > 0 && forall k :: 0 <= k < |ps| ==> ps[k].Valid()
    ensures ToSlices(ps) == [ps[0].ToSlice()] + ToSlices(ps[1..])
  {
    var l := [ps[0].ToSlice()] + ToSlices(ps[1..]);
    forall k | 0 <= k < |ps|
      ensures ToSlices(ps)[k] == l[k]
    {
      if k > 0 {
        assert ps[1..][k - 1] == ps[k];
      }
    }
  }

  lemma Regroup<T>(r: seq<T>, x: T, rest: seq<T>)
    ensures r + ([x] + rest) == (r + [x]) + rest
  {
  }

  /** Moving the first element of `s` to the end of `r` keeps `r + s`. */
  lemma MoveFirst<T>(r: seq<T>, s: seq<T>)
    requires |s| > 0
    ensures r + s == (r + [s[0]]) + s[1..]
  {
    assert s == [s[0]] + s[1..];
  }

  /** Iterating a `Param` yields exactly its `to_slice`, in order. */
  method CollectParam(param: Param) returns (r: seq<u16>)
    requires param.Valid()
    ensures r == param.ToSlice()
  {
    var it := new ParamIter(param);
    r := [];
    while true
      invariant it.Valid() && it.param == param
      invariant r + it.Remaining() == param.ToSlice()
      decreases param.len - it.index
    {
      ghost var before := it.Remaining();
      var next := it.Next();
      if next.None? {
        assert r + [] == r;
        break;
      }
      MoveFirst(r, before);
      r := r + [next.value];
    }
  }
}
