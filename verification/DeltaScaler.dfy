/** Fractional scaling of pointer and scroll deltas with a carried remainder (`src/client.rs`), in
  * exact arithmetic over the reals.
  */
module DeltaScaler {
  import opened Seqs
  import opened Wrappers

  const EV_REL: nat := 0x02
  const EV_ABS: nat := 0x03
  const REL_X: nat := 0x00
  const REL_Y: nat := 0x01
  const REL_HWHEEL: nat := 0x06
  const REL_WHEEL: nat := 0x08
  const REL_WHEEL_HI_RES: nat := 0x0b
  const REL_HWHEEL_HI_RES: nat := 0x0c

  const MAX_I32: int := 0x7fff_ffff

  datatype InputI32 = InputI32(type_: nat, code: nat, value: int)

  datatype InputF64 = InputF64(type_: nat, code: nat, value: real)

  datatype InputEvent = InputEvent(inputi32: Option<InputI32>, inputf64: Option<InputF64>)

  datatype Scales = Scales(mouse: real, scroll: real)

  /** Carried fractional delta per relative axis. */
  type Remainders = map<nat, real>

  predicate Active(s: Scales) {
    s.mouse != 1.0 || s.scroll != 1.0
  }

  function ScaleFor(s: Scales, code: nat): Option<real> {
    if code == REL_X || code == REL_Y then Some(s.mouse)
    else if code == REL_WHEEL || code == REL_HWHEEL || code == REL_WHEEL_HI_RES || code == REL_HWHEEL_HI_RES then Some(s.scroll)
    else None
  }

  /** What deltas of an axis are multiplied by; axes without a scale are left alone. */
  function Factor(s: Scales, code: nat): real {
    match ScaleFor(s, code)
    case Some(scale) => scale
    case None => 1.0
  }

  predicate OnAxis(e: InputEvent, code: nat) {
    e.inputi32.Some? && e.inputi32.value.type_ == EV_REL && e.inputi32.value.code == code
  }

  predicate Scaled(s: Scales, e: InputEvent) {
    e.inputi32.Some? && e.inputi32.value.type_ == EV_REL && Factor(s, e.inputi32.value.code) != 1.0
  }

  /** A delta under a scale. */
  function Times(delta: int, scale: real): real {
    delta as real * scale
  }

  /** Rounding toward zero. */
  function Trunc(x: real): int {
    if x >= 0.0 then x.Floor else -((-x).Floor)
  }

  /** The saturating cast to a 32-bit integer. */
  function ToI32(n: int): int {
    if n > MAX_I32 then MAX_I32 else if n < -MAX_I32 - 1 then -MAX_I32 - 1 else n
  }

  function Carry(r: Remainders, code: nat): real {
    if code in r then r[code] else 0.0
  }

  datatype Outcome = Outcome(remainders: Remainders, events: seq<InputEvent>)

  function ScaleOne(s: Scales, r: Remainders, e: InputEvent): Outcome {
    if !Scaled(s, e) then Outcome(r, [e])
    else
      var i := e.inputi32.value;
      var sum := Carry(r, i.code) + Times(i.value, Factor(s, i.code));
      var whole := Trunc(sum);
      Outcome(r[i.code := sum - whole as real],
              if whole == 0 then [] else [e.(inputi32 := Some(i.(value := ToI32(whole))))])
  }

  /** A batch, event by event. */
  function ScaleAll(s: Scales, r: Remainders, es: seq<InputEvent>): Outcome
    decreases |es|
  {
    if es == [] then Outcome(r, [])
    else
      var first := ScaleOne(s, r, es[0]);
      var rest := ScaleAll(s, first.remainders, es[1..]);
      Outcome(rest.remainders, first.events + rest.events)
  }

  // ----- Conservation

  /** The sum of the deltas on one axis. */
  function Total(es: seq<InputEvent>, code: nat): int {
    if es == [] then 0 else (if OnAxis(es[0], code) then es[0].inputi32.value.value else 0) + Total(es[1..], code)
  }

  /** No remainder reaches a whole tick. */
  predicate Small(r: Remainders) {
    forall code | code in r :: -1.0 < r[code] < 1.0
  }

  /** Deltas for which the cast cannot saturate. */
  predicate Fits(s: Scales, e: InputEvent) {
    Scaled(s, e) ==>
      var i := e.inputi32.value;
      var x := Times(i.value, Factor(s, i.code));
      -(MAX_I32 - 1) as real <= x <= (MAX_I32 - 1) as real
  }

  lemma TruncIsNear(x: real)
    ensures -1.0 < x - Trunc(x) as real < 1.0
    ensures x >= 0.0 ==> Trunc(x) as real <= x
    ensures x <= 0.0 ==> Trunc(x) as real >= x
  {
  }

  lemma NeverSaturates(carry: real, x: real)
    requires -1.0 < carry < 1.0 && -(MAX_I32 - 1) as real <= x <= (MAX_I32 - 1) as real
    ensures ToI32(Trunc(carry + x)) == Trunc(carry + x)
  {
    TruncIsNear(carry + x);
  }

  function ValueOn(e: InputEvent, code: nat): int {
    if OnAxis(e, code) then e.inputi32.value.value else 0
  }

  lemma TotalOfOne(e: InputEvent, code: nat)
    ensures Total([e], code) == ValueOn(e, code)
  {
    assert [e][1..] == [];
  }

  lemma ZeroAndOne(v: int, f: real)
    ensures Times(0, f) == 0.0 && Times(v, 1.0) == v as real
  {
  }

  lemma SmallUpdate(r: Remainders, code: nat, x: real)
    requires Small(r) && -1.0 < x < 1.0
    ensures Small(r[code := x]) && Carry(r[code := x], code) == x
  {
  }

  /** One scaled event: a whole number of ticks goes out, the rest is carried. */
  lemma TickConserves(s: Scales, r: Remainders, e: InputEvent)
    requires Small(r) && Fits(s, e) && Scaled(s, e)
    ensures var o, i := ScaleOne(s, r, e), e.inputi32.value;
      && Small(o.remainders)
      && Total(o.events, i.code) as real + Carry(o.remainders, i.code) == Carry(r, i.code) + Times(i.value, Factor(s, i.code))
  {
    var i := e.inputi32.value;
    hide Times, Factor;
    var x := Times(i.value, Factor(s, i.code));
    var sum := Carry(r, i.code) + x;
    var whole := Trunc(sum);
    TruncIsNear(sum);
    NeverSaturates(Carry(r, i.code), x);
    hide Trunc, ToI32;
    SmallUpdate(r, i.code, sum - whole as real);
    TotalOfOne(e.(inputi32 := Some(i.(value := ToI32(whole)))), i.code);
    assert whole == 0 ==> Total([], i.code) == 0;
    hide Small, Carry, Total;
  }

  lemma OtherAxis(s: Scales, r: Remainders, e: InputEvent, code: nat)
    requires Scaled(s, e) && e.inputi32.value.code != code
    ensures var o := ScaleOne(s, r, e); Total(o.events, code) == 0 && Carry(o.remainders, code) == Carry(r, code)
  {
    hide Factor, Trunc, ToI32;
  }

  lemma OneConserves(s: Scales, r: Remainders, e: InputEvent, code: nat)
    requires Small(r) && Fits(s, e)
    ensures var o := ScaleOne(s, r, e);
      && Small(o.remainders)
      && Total(o.events, code) as real + Carry(o.remainders, code) == Carry(r, code) + Times(ValueOn(e, code), Factor(s, code))
  {
    ZeroAndOne(ValueOn(e, code), Factor(s, code));
    if !Scaled(s, e) {
      TotalOfOne(e, code);
      assert ValueOn(e, code) == 0 || Factor(s, code) == 1.0;
      hide Times, Factor, Total;
    } else {
      TickConserves(s, r, e);
      hide ScaleOne, Factor, Total, Small, Carry, Fits, Times;
      if e.inputi32.value.code != code {
        OtherAxis(s, r, e, code);
      }
    }
  }

  lemma {:induction false} TotalConcat(a: seq<InputEvent>, b: seq<InputEvent>, code: nat)
    ensures Total(a + b, code) == Total(a, code) + Total(b, code)
  {
    if a == [] {
      assert a + b == b;
    } else {
      assert (a + b)[1..] == a[1..] + b;
      TotalConcat(a[1..], b, code);
    }
  }

  lemma Distribute(x: int, y: int, f: real)
    ensures Times(x + y, f) == Times(x, f) + Times(y, f)
  {
  }

  /** Over every event sequence: what was emitted plus what is carried is the scale times the input,
    * and less than one tick is carried. */
  lemma {:induction false} ScalingConserves(s: Scales, r: Remainders, es: seq<InputEvent>, code: nat)
    requires Small(r) && forall i | 0 <= i < |es| :: Fits(s, es[i])
    ensures var o := ScaleAll(s, r, es);
      && Small(o.remainders) && -1.0 < Carry(o.remainders, code) < 1.0
      && Total(o.events, code) as real + Carry(o.remainders, code) == Carry(r, code) + Times(Total(es, code), Factor(s, code))
    decreases |es|
  {
    hide ScaleOne, Factor, Fits, Times;
    if es == [] {
      ZeroAndOne(0, Factor(s, code));
    } else {
      var first := ScaleOne(s, r, es[0]);
      OneConserves(s, r, es[0], code);
      hide Small, Carry;
      ScalingConserves(s, first.remainders, es[1..], code);
      TotalConcat(first.events, ScaleAll(s, first.remainders, es[1..]).events, code);
      Distribute(ValueOn(es[0], code), Total(es[1..], code), Factor(s, code));
    }
  }

  // ----- Batching

  /** How the events are batched does not matter. */
  lemma {:induction false} BatchesJoin(s: Scales, r: Remainders, a: seq<InputEvent>, b: seq<InputEvent>)
    ensures var x := ScaleAll(s, r, a);
      var y := ScaleAll(s, x.remainders, b);
      ScaleAll(s, r, a + b) == Outcome(y.remainders, x.events + y.events)
    decreases |a|
  {
    if a == [] {
      assert a + b == b;
    } else {
      hide ScaleOne;
      assert (a + b)[1..] == a[1..] + b;
      var first := ScaleOne(s, r, a[0]);
      BatchesJoin(s, first.remainders, a[1..], b);
      var x := ScaleAll(s, first.remainders, a[1..]);
      Assoc(first.events, x.events, ScaleAll(s, x.remainders, b).events);
    }
  }

  function Joined(batches: seq<seq<InputEvent>>): seq<InputEvent> {
    if batches == [] then [] else batches[0] + Joined(batches[1..])
  }

  function ScaleBatches(s: Scales, r: Remainders, batches: seq<seq<InputEvent>>): Outcome
    decreases |batches|
  {
    if batches == [] then Outcome(r, [])
    else
      var first := ScaleAll(s, r, batches[0]);
      var rest := ScaleBatches(s, first.remainders, batches[1..]);
      Outcome(rest.remainders, first.events + rest.events)
  }

  lemma {:induction false} BatchesDoNotMatter(s: Scales, r: Remainders, batches: seq<seq<InputEvent>>)
    ensures ScaleBatches(s, r, batches) == ScaleAll(s, r, Joined(batches))
    decreases |batches|
  {
    if batches != [] {
      BatchesDoNotMatter(s, ScaleAll(s, r, batches[0]).remainders, batches[1..]);
      BatchesJoin(s, r, batches[0], Joined(batches[1..]));
      hide ScaleAll;
    }
  }

  /** At every point of every run, in any batching, an axis is less than one tick off. */
  lemma NoDrift(s: Scales, batches: seq<seq<InputEvent>>, code: nat)
    requires var es := Joined(batches); forall i | 0 <= i < |es| :: Fits(s, es[i])
    ensures var emitted := Total(ScaleBatches(s, map[], batches).events, code) as real;
      -1.0 < Times(Total(Joined(batches), code), Factor(s, code)) - emitted < 1.0
  {
    BatchesDoNotMatter(s, map[], batches);
    assert Small(map[]) && Carry(map[], code) == 0.0;
    hide Total, Times, Factor, ScaleAll, ScaleBatches, Fits;
    ScalingConserves(s, map[], Joined(batches), code);
  }

  /** Pointer motion follows the mouse scale and both wheels, in lines and in finer steps, the scroll
    * scale, to within one tick; every other axis is passed on exactly. */
  lemma AxesFollowTheirScale(s: Scales, batches: seq<seq<InputEvent>>, code: nat)
    requires var es := Joined(batches); forall i | 0 <= i < |es| :: Fits(s, es[i])
    ensures var emitted, given := Total(ScaleBatches(s, map[], batches).events, code), Total(Joined(batches), code);
      && (code in {REL_X, REL_Y} ==> -1.0 < given as real * s.mouse - emitted as real < 1.0)
      && (code in {REL_WHEEL, REL_HWHEEL, REL_WHEEL_HI_RES, REL_HWHEEL_HI_RES} ==> -1.0 < given as real * s.scroll - emitted as real < 1.0)
      && (code !in {REL_X, REL_Y, REL_WHEEL, REL_HWHEEL, REL_WHEEL_HI_RES, REL_HWHEEL_HI_RES} ==> emitted == given)
  {
    hide Total, ScaleBatches, Fits;
    NoDrift(s, batches, code);
  }

  /** The cast goes to the nearest number of 32 bits. */
  lemma CastIsNearest(n: int, m: int)
    requires -0x8000_0000 <= m <= 0x7fff_ffff
    ensures -0x8000_0000 <= ToI32(n) <= 0x7fff_ffff
    ensures (if n >= ToI32(n) then n - ToI32(n) else ToI32(n) - n) <= (if n >= m then n - m else m - n)
  {
  }

  const MAX_INPUT_SCALE := 20.0

  /** Under the largest scale the settings accept, no delta up to 107 million can saturate. */
  lemma AcceptedScalesFit(s: Scales, e: InputEvent)
    requires 0.0 < s.mouse <= MAX_INPUT_SCALE && 0.0 < s.scroll <= MAX_INPUT_SCALE
    requires e.inputi32.Some? ==> -107374182 <= e.inputi32.value.value <= 107374182
    ensures Fits(s, e)
  {
    if Scaled(s, e) {
      Bounded(e.inputi32.value.value, Factor(s, e.inputi32.value.code));
    }
  }

  lemma Bounded(v: int, f: real)
    requires 0.0 < f <= MAX_INPUT_SCALE && -107374182 <= v <= 107374182
    ensures -2147483640.0 <= Times(v, f) <= 2147483640.0
  {
    var x := v as real;
    if v >= 0 {
      assert 0.0 <= x * f <= x * 20.0 <= 2147483640.0;
    } else {
      assert 0.0 <= (-x) * f <= (-x) * 20.0 <= 2147483640.0;
      assert x * f == -((-x) * f);
    }
  }

  // ----- Same-sign input

  predicate Forward(es: seq<InputEvent>, code: nat, sign: int) {
    forall i | 0 <= i < |es| && OnAxis(es[i], code) :: es[i].inputi32.value.value * sign >= 0
  }

  lemma OneKeepsSign(s: Scales, r: Remainders, e: InputEvent, code: nat, sign: int)
    requires (sign == 1 || sign == -1) && Factor(s, code) > 0.0 && Carry(r, code) * sign as real >= 0.0
    requires OnAxis(e, code) ==> e.inputi32.value.value * sign >= 0
    ensures Carry(ScaleOne(s, r, e).remainders, code) * sign as real >= 0.0
  {
    if Scaled(s, e) {
      if e.inputi32.value.code == code {
        var x := Times(e.inputi32.value.value, Factor(s, code));
        SameSign(e.inputi32.value.value, Factor(s, code), sign);
        TruncIsNear(Carry(r, code) + x);
      } else {
        OtherAxis(s, r, e, code);
      }
    }
  }

  lemma SameSign(v: int, f: real, sign: int)
    requires (sign == 1 || sign == -1) && f > 0.0 && v * sign >= 0
    ensures Times(v, f) * sign as real >= 0.0
  {
    if sign == 1 {
      assert v as real * f >= 0.0;
    } else {
      assert (-v) as real * f >= 0.0;
    }
  }

  lemma {:induction false} CarryKeepsSign(s: Scales, r: Remainders, es: seq<InputEvent>, code: nat, sign: int)
    requires (sign == 1 || sign == -1) && Factor(s, code) > 0.0 && Carry(r, code) * sign as real >= 0.0
    requires Forward(es, code, sign)
    ensures Carry(ScaleAll(s, r, es).remainders, code) * sign as real >= 0.0
    decreases |es|
  {
    if es != [] {
      OneKeepsSign(s, r, es[0], code, sign);
      hide ScaleOne, Factor, Carry;
      CarryKeepsSign(s, ScaleOne(s, r, es[0]).remainders, es[1..], code, sign);
    }
  }

  lemma TruncOfWhole(n: int, carry: real, sign: int)
    requires (sign == 1 || sign == -1) && -1.0 < carry < 1.0 && carry * sign as real >= 0.0 && n * sign >= 0
    ensures Trunc(n as real + carry) == n
  {
  }

  lemma {:induction false} TotalKeepsSign(es: seq<InputEvent>, code: nat, sign: int)
    requires Forward(es, code, sign)
    ensures Total(es, code) * sign >= 0
  {
    if es != [] {
      TotalKeepsSign(es[1..], code, sign);
    }
  }

  lemma WholeKeepsSign(n: int, carry: real, x: real, sign: int)
    requires (sign == 1 || sign == -1) && -1.0 < carry < 1.0 && n as real + carry == x && x * sign as real >= 0.0
    requires carry * sign as real >= 0.0
    ensures n * sign >= 0
  {
  }

  /** From a fresh scaler, input in one direction has emitted exactly the scaled total rounded toward
    * zero, however it was batched. */
  lemma OneDirectionIsExact(s: Scales, batches: seq<seq<InputEvent>>, code: nat, sign: int)
    requires (sign == 1 || sign == -1) && Factor(s, code) > 0.0 && Forward(Joined(batches), code, sign)
    requires var es := Joined(batches); forall i | 0 <= i < |es| :: Fits(s, es[i])
    ensures Total(ScaleBatches(s, map[], batches).events, code) ==
            Trunc(Times(Total(Joined(batches), code), Factor(s, code)))
  {
    var es := Joined(batches);
    hide Times, Factor, Total, ScaleAll, ScaleBatches, Fits, Forward;
    assert Small(map[]) && Carry(map[], code) == 0.0;
    BatchesDoNotMatter(s, map[], batches);
    ScalingConserves(s, map[], es, code);
    CarryKeepsSign(s, map[], es, code, sign);
    TotalKeepsSign(es, code, sign);
    SameSign(Total(es, code), Factor(s, code), sign);
    var o := ScaleAll(s, map[], es);
    hide *;
    WholeKeepsSign(Total(o.events, code), Carry(o.remainders, code), Times(Total(es, code), Factor(s, code)), sign);
    TruncOfWhole(Total(o.events, code), Carry(o.remainders, code), sign);
  }

  // ----- Axes do not interfere

  function Only(es: seq<InputEvent>, code: nat): seq<InputEvent> {
    if es == [] then [] else (if OnAxis(es[0], code) then [es[0]] else []) + Only(es[1..], code)
  }

  lemma {:induction false} OnlyConcat(a: seq<InputEvent>, b: seq<InputEvent>, code: nat)
    ensures Only(a + b, code) == Only(a, code) + Only(b, code)
  {
    if a == [] {
      assert a + b == b;
    } else {
      assert (a + b)[1..] == a[1..] + b;
      OnlyConcat(a[1..], b, code);
      Assoc(if OnAxis(a[0], code) then [a[0]] else [], Only(a[1..], code), Only(b, code));
    }
  }

  lemma OneAxis(s: Scales, r: Remainders, q: Remainders, e: InputEvent, code: nat)
    requires Carry(r, code) == Carry(q, code)
    ensures var x := ScaleOne(s, r, e);
      if OnAxis(e, code) then
        var y := ScaleOne(s, q, e);
        Only(x.events, code) == y.events && Carry(x.remainders, code) == Carry(y.remainders, code)
      else Only(x.events, code) == [] && Carry(x.remainders, code) == Carry(q, code)
  {
    assert forall z: InputEvent :: [z][1..] == [];
    hide Trunc, ToI32, Factor;
  }

  /** What is emitted on one axis is what the events of that axis alone would have emitted. */
  lemma {:induction false} AxesAreIndependent(s: Scales, r: Remainders, q: Remainders, es: seq<InputEvent>, code: nat)
    requires Carry(r, code) == Carry(q, code)
    ensures var x, y := ScaleAll(s, r, es), ScaleAll(s, q, Only(es, code));
      Only(x.events, code) == y.events && Carry(x.remainders, code) == Carry(y.remainders, code)
    decreases |es|
  {
    if es != [] {
      OneAxis(s, r, q, es[0], code);
      hide ScaleOne, Carry;
      var first := ScaleOne(s, r, es[0]);
      OnlyConcat(first.events, ScaleAll(s, first.remainders, es[1..]).events, code);
      if OnAxis(es[0], code) {
        assert Only(es, code)[1..] == Only(es[1..], code);
        AxesAreIndependent(s, first.remainders, ScaleOne(s, q, es[0]).remainders, es[1..], code);
      } else {
        AxesAreIndependent(s, first.remainders, q, es[1..], code);
        assert Only(es, code) == Only(es[1..], code);
      }
    }
  }

  /** The events that are not scaled. */
  function Untouched(s: Scales, es: seq<InputEvent>): seq<InputEvent> {
    if es == [] then [] else (if Scaled(s, es[0]) then [] else [es[0]]) + Untouched(s, es[1..])
  }

  lemma {:induction false} UntouchedConcat(s: Scales, a: seq<InputEvent>, b: seq<InputEvent>)
    ensures Untouched(s, a + b) == Untouched(s, a) + Untouched(s, b)
  {
    if a == [] {
      assert a + b == b;
    } else {
      assert (a + b)[1..] == a[1..] + b;
      UntouchedConcat(s, a[1..], b);
      Assoc(if Scaled(s, a[0]) then [] else [a[0]], Untouched(s, a[1..]), Untouched(s, b));
    }
  }

  /** Keys, buttons, syn and unscaled axes pass through as they are, in order. */
  lemma {:induction false} OthersPass(s: Scales, r: Remainders, es: seq<InputEvent>)
    ensures Untouched(s, ScaleAll(s, r, es).events) == Untouched(s, es)
    decreases |es|
  {
    if es != [] {
      var first := ScaleOne(s, r, es[0]);
      assert forall z: InputEvent :: [z][1..] == [];
      assert Untouched(s, first.events) == if Scaled(s, es[0]) then [] else [es[0]];
      hide ScaleOne, Scaled;
      UntouchedConcat(s, first.events, ScaleAll(s, first.remainders, es[1..]).events);
      OthersPass(s, first.remainders, es[1..]);
    }
  }

  // ----- The object

  class Scaler {
    const scales: Scales
    var remainders: Remainders

    constructor (mouse: real, scroll: real)
      ensures scales == Scales(mouse, scroll) && remainders == map[]
    {
      scales := Scales(mouse, scroll);
      remainders := map[];
    }

    /** apply: scales a batch, dropping events that do not reach a whole tick yet. */
    method Apply(events: seq<InputEvent>) returns (kept: seq<InputEvent>)
      modifies this
      ensures Outcome(remainders, kept) == ScaleAll(scales, old(remainders), events)
    {
      if !Active(scales) {
        NothingScaled(scales, remainders, events);
        return events;
      }
      kept := [];
      ghost var end := ScaleAll(scales, remainders, events);
      assert events[0..] == events;
      for i := 0 to |events|
        invariant (var rest := ScaleAll(scales, remainders, events[i..]); Outcome(rest.remainders, kept + rest.events)) == end
      {
        hide ScaleOne;
        var e := events[i];
        assert events[i..][1..] == events[i + 1..];
        var o := ScaleOne(scales, remainders, e);
        Assoc(kept, o.events, ScaleAll(scales, o.remainders, events[i + 1..]).events);
        remainders := o.remainders;
        kept := kept + o.events;
      }
    }
  }

  lemma {:induction false} NothingScaled(s: Scales, r: Remainders, es: seq<InputEvent>)
    requires !Active(s)
    ensures ScaleAll(s, r, es) == Outcome(r, es)
    decreases |es|
  {
    if es != [] {
      NothingScaled(s, r, es[1..]);
    }
  }
}
