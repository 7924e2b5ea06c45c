/** The scale-configuration logic of visx's vendored `@visx/scale`: the fixed operator order
    of `scaleOperator`, the operators that change a scale in place, the per-type operator
    lists and the `createScale` dispatch, `inferScaleType`, the `getTicks` fallback and
    `scaleCanBeZeroed`. A d3 scale is a record of capability names (the methods it has) plus
    the state its setters write. */
module VisxScale {
  import opened Wrappers
  import opened Sequences

  // ---------------------------------------------------------------------------
  // operators and their fixed order
  // ---------------------------------------------------------------------------

  datatype Op = Domain | Nice | Zero | Interpolate | Round | Range | Reverse
              | Align | Base | Clamp | Constant | Exponent | Padding | Unknown

  /** `ALL_OPERATORS`: domain before nice before zero, interpolate before round, range before
      reverse, then the order-free ones. */
  const AllOperators: seq<Op> :=
    [Domain, Nice, Zero, Interpolate, Round, Range, Reverse,
     Align, Base, Clamp, Constant, Exponent, Padding, Unknown]

  /** Position in `ALL_OPERATORS`. */
  function Rank(o: Op): int {
    match o
    case Domain => 0
    case Nice => 1
    case Zero => 2
    case Interpolate => 3
    case Round => 4
    case Range => 5
    case Reverse => 6
    case Align => 7
    case Base => 8
    case Clamp => 9
    case Constant => 10
    case Exponent => 11
    case Padding => 12
    case Unknown => 13
  }

  /** `ALL_OPERATORS.filter(o => selection.has(o))`. */
  function SelectOps(args: seq<Op>): seq<Op> {
    Filter(AllOperators, (o: Op) => o in args)
  }

  /** `ALL_OPERATORS` lists every operator once, at its rank. */
  lemma AllOperatorsRanked()
    ensures forall i :: 0 <= i < |AllOperators| ==> Rank(AllOperators[i]) == i
    ensures forall o :: o in AllOperators
    ensures StrictlyIncreasingBy(AllOperators, Rank)
  {
    forall o
      ensures o in AllOperators
    {
      assert AllOperators[Rank(o)] == o;
    }
  }

  /** The operators `scaleOperator(...args)` applies are exactly the named ones. */
  lemma SelectOpsMembers(args: seq<Op>, o: Op)
    ensures o in SelectOps(args) <==> o in args
  {
    AllOperatorsRanked();
    FilterMembership(AllOperators, (o: Op) => o in args, o);
  }

  /** Each selected operator appears once, in `ALL_OPERATORS` order. */
  lemma SelectOpsOrdered(args: seq<Op>)
    ensures StrictlyIncreasingBy(SelectOps(args), Rank)
  {
    AllOperatorsRanked();
    FilterStrictlyIncreasing(AllOperators, (o: Op) => o in args, Rank);
  }

  /** The order and repetition of the arguments do not matter. */
  lemma SelectOpsSetDetermined(args: seq<Op>, other: seq<Op>)
    requires forall o :: o in args <==> o in other
    ensures SelectOps(args) == SelectOps(other)
  {
    FilterExtensional(AllOperators, (o: Op) => o in args, (o: Op) => o in other);
  }

  /** The selection is the one rank-ordered list of the named operators. */
  lemma SelectOpsExact(args: seq<Op>, expected: seq<Op>)
    requires StrictlyIncreasingBy(expected, Rank)
    requires forall o :: o in args <==> o in expected
    ensures SelectOps(args) == expected
  {
    forall o
      ensures o in SelectOps(args) <==> o in expected
    {
      SelectOpsMembers(args, o);
    }
    SelectOpsOrdered(args);
    StrictlyIncreasingUnique(SelectOps(args), expected, Rank);
  }

  /** `scaleOperator(...args)`: copies the arguments into `ops` by a counting loop, builds the
      selection set, and filters `ALL_OPERATORS` by it. */
  method ScaleOperator(args: seq<Op>) returns (selectedOps: seq<Op>)
    ensures selectedOps == SelectOps(args)
  {
    var ops := new Op[|args|];
    for k := 0 to |args|
      invariant ops[..k] == args[..k]
    {
      ops[k] := args[k];
    }
    assert ops[..] == args;
    var selection := set o | o in ops[..];
    selectedOps := Filter(AllOperators, (o: Op) => o in selection);
    FilterExtensional(AllOperators, (o: Op) => o in selection, (o: Op) => o in args);
  }

  // ---------------------------------------------------------------------------
  // scale state and configuration
  // ---------------------------------------------------------------------------

  /** The scale's interpolator: d3's default, `interpolateRound`, or a named colour space. */
  datatype Interpolator = DefaultInterpolator | RoundInterpolator | ColorInterpolator(name: string)

  /** What the d3 setters used by the operators write. */
  datatype ScaleState = ScaleState(
    domain: seq<real>, range: seq<real>, interpolator: Interpolator, round: bool, clamp: bool,
    align: real, base: real, constant: real, exponent: real,
    padding: real, paddingInner: real, paddingOuter: real, unknown: Option<real>)

  /** A visx scale config; `None` is an absent or undefined field. */
  datatype ScaleConfig = ScaleConfig(
    scaleType: Option<string>, domain: Option<seq<real>>, range: Option<seq<real>>,
    align: Option<real>, base: Option<real>, clamp: Option<bool>, constant: Option<real>,
    exponent: Option<real>, interpolate: Option<string>, padding: Option<real>,
    paddingInner: Option<real>, paddingOuter: Option<real>, reverse: Option<bool>,
    round: Option<bool>, unknown: Option<real>, zero: Option<bool>)

  /** `Math.min(a, b)` and `Math.max(a, b)`. */
  function Min(a: real, b: real): real {
    if a <= b then a else b
  }

  function Max(a: real, b: real): real {
    if a >= b then a else b
  }

  /** `applyZero`'s new domain: the interval spanned by the first two values widened to take
      in 0, in the original orientation. */
  function ZeroDomain(d: seq<real>): (r: seq<real>)
    ensures |d| < 2 ==> r == d
    ensures |d| >= 2 ==> |r| == 2
    ensures |d| >= 2 ==> (r[1] < r[0] <==> d[1] < d[0])
    ensures |d| >= 2 ==> Min(r[0], r[1]) == Min(0.0, Min(d[0], d[1]))
    ensures |d| >= 2 ==> Max(r[0], r[1]) == Max(0.0, Max(d[0], d[1]))
  {
    if |d| < 2 then d
    else
      var a, b := d[0], d[1];
      var isDescending := b < a;
      var lo, hi := if isDescending then b else a, if isDescending then a else b;
      var withZero := [Min(0.0, lo), Max(0.0, hi)];
      if isDescending then [withZero[1], withZero[0]] else withZero
  }

  /** The widened domain contains 0 and both original endpoints. */
  lemma ZeroDomainContains(d: seq<real>)
    requires |d| >= 2
    ensures var r := ZeroDomain(d);
      && Min(r[0], r[1]) <= 0.0 <= Max(r[0], r[1])
      && Min(r[0], r[1]) <= d[0] <= Max(r[0], r[1])
      && Min(r[0], r[1]) <= d[1] <= Max(r[0], r[1])
  {
  }

  /** `range().slice().reverse()`. */
  function Reversed(s: seq<real>): (r: seq<real>)
    ensures |r| == |s|
  {
    seq(|s|, i requires 0 <= i < |s| => s[|s| - 1 - i])
  }

  /** Reversing is its own inverse, and keeps the values. */
  lemma ReversedInvolution(s: seq<real>)
    ensures Reversed(Reversed(s)) == s
    ensures multiset(Reversed(s)) == multiset(s)
  {
    ReversedMultiset(s);
  }

  lemma {:induction false} ReversedMultiset(s: seq<real>)
    ensures multiset(Reversed(s)) == multiset(s)
    decreases |s|
  {
    if |s| > 0 {
      var init := s[..|s| - 1];
      ReversedMultiset(init);
      assert Reversed(s) == [s[|s| - 1]] + Reversed(init);
      assert s == init + [s[|s| - 1]];
    }
  }

  // ---------------------------------------------------------------------------
  // the operators as state transformers
  // ---------------------------------------------------------------------------

  /** `applyZero`: only for `zero === true`. */
  function ZeroStep(st: ScaleState, config: ScaleConfig): ScaleState {
    if config.zero == Some(true) then st.(domain := ZeroDomain(st.domain)) else st
  }

  /** `applyReverse`: only for a truthy `reverse`. */
  function ReverseStep(st: ScaleState, config: ScaleConfig): ScaleState {
    if config.reverse == Some(true) then st.(range := Reversed(st.range)) else st
  }

  /** `applyRound`: a defined `round` is ignored when it is true and `interpolate` is also
      set; otherwise it goes to the scale's `round`, or becomes `interpolateRound` on a scale
      that only interpolates. */
  function RoundStep(st: ScaleState, config: ScaleConfig, members: set<string>): ScaleState {
    if config.round.None? then st
    else if config.round.value && config.interpolate.Some? then st
    else if "round" in members then st.(round := config.round.value)
    else if "interpolate" in members && config.round.value then st.(interpolator := RoundInterpolator)
    else st
  }

  /** `applyPadding`: the three paddings, each where both scale and config have it. */
  function PaddingStep(st: ScaleState, config: ScaleConfig, members: set<string>): ScaleState {
    var s1 := if "padding" in members && config.padding.Some? then st.(padding := config.padding.value) else st;
    var s2 := if "paddingInner" in members && config.paddingInner.Some? then s1.(paddingInner := config.paddingInner.value) else s1;
    if "paddingOuter" in members && config.paddingOuter.Some? then s2.(paddingOuter := config.paddingOuter.value) else s2
  }

  /** `operators[op](scale, config)` on the scale's state. Domain and range are set whenever
      the config has them; the other setters also need the scale to have the method. `nice`
      is not modelled and leaves the state alone. */
  function Step(op: Op, st: ScaleState, config: ScaleConfig, members: set<string>): ScaleState {
    match op
    case Domain => if config.domain.Some? then st.(domain := config.domain.value) else st
    case Nice => st
    case Zero => ZeroStep(st, config)
    case Interpolate =>
      if config.interpolate.Some? && "interpolate" in members
      then st.(interpolator := ColorInterpolator(config.interpolate.value)) else st
    case Round => RoundStep(st, config, members)
    case Range => if config.range.Some? then st.(range := config.range.value) else st
    case Reverse => ReverseStep(st, config)
    case Align => if "align" in members && config.align.Some? then st.(align := config.align.value) else st
    case Base => if "base" in members && config.base.Some? then st.(base := config.base.value) else st
    case Clamp => if "clamp" in members && config.clamp.Some? then st.(clamp := config.clamp.value) else st
    case Constant =>
      if "constant" in members && config.constant.Some? then st.(constant := config.constant.value) else st
    case Exponent =>
      if "exponent" in members && config.exponent.Some? then st.(exponent := config.exponent.value) else st
    case Padding => PaddingStep(st, config, members)
    case Unknown =>
      if "unknown" in members && config.unknown.Some? then st.(unknown := config.unknown) else st
  }

  /** `selectedOps.forEach(op => operators[op](scale, config))`. */
  function ApplyAll(ops: seq<Op>, st: ScaleState, config: ScaleConfig, members: set<string>): ScaleState
    decreases |ops|
  {
    if |ops| == 0 then st
    else Step(ops[|ops| - 1], ApplyAll(ops[..|ops| - 1], st, config, members), config, members)
  }

  /** `zero` only widens the domain when it is exactly true, and touches nothing else. */
  lemma ZeroGuard(st: ScaleState, config: ScaleConfig, members: set<string>)
    ensures config.zero != Some(true) ==> Step(Zero, st, config, members) == st
    ensures config.zero == Some(true) ==> Step(Zero, st, config, members) == st.(domain := ZeroDomain(st.domain))
  {
  }

  /** `reverse` only flips the range when it is truthy, and touches nothing else. */
  lemma ReverseGuard(st: ScaleState, config: ScaleConfig, members: set<string>)
    ensures config.reverse != Some(true) ==> Step(Reverse, st, config, members) == st
    ensures config.reverse == Some(true) ==>
      && Step(Reverse, st, config, members) == st.(range := Reversed(st.range))
      && forall i :: 0 <= i < |st.range| ==> Step(Reverse, st, config, members).range[i] == st.range[|st.range| - 1 - i]
  {
  }

  /** With `interpolate` set, a true `round` changes nothing, so the colour interpolator that
      the earlier `interpolate` step installed survives. */
  lemma RoundYieldsToInterpolate(st: ScaleState, config: ScaleConfig, members: set<string>)
    requires config.round == Some(true) && config.interpolate.Some?
    ensures Step(Round, st, config, members) == st
    ensures "interpolate" in members ==>
      Step(Round, Step(Interpolate, st, config, members), config, members).interpolator
        == ColorInterpolator(config.interpolate.value)
  {
  }

  // ---------------------------------------------------------------------------
  // the mutable scale
  // ---------------------------------------------------------------------------

  /** A d3 scale: the names of its methods and the state its setters write. */
  class Scale {
    const members: set<string>
    var domain: seq<real>
    var range: seq<real>
    var interpolator: Interpolator
    var round: bool
    var clamp: bool
    var align: real
    var base: real
    var constant: real
    var exponent: real
    var padding: real
    var paddingInner: real
    var paddingOuter: real
    var unknown: Option<real>

    function State(): ScaleState
      reads this
    {
      ScaleState(domain, range, interpolator, round, clamp, align, base, constant, exponent,
                 padding, paddingInner, paddingOuter, unknown)
    }

    /** A scale as a d3 constructor (`linear()`, `band()`, ...) returns it. */
    constructor (members: set<string>, initial: ScaleState)
      ensures this.members == members && State() == initial
    {
      this.members := members;
      domain := initial.domain;
      range := initial.range;
      interpolator := initial.interpolator;
      round := initial.round;
      clamp := initial.clamp;
      align := initial.align;
      base := initial.base;
      constant := initial.constant;
      exponent := initial.exponent;
      padding := initial.padding;
      paddingInner := initial.paddingInner;
      paddingOuter := initial.paddingOuter;
      unknown := initial.unknown;
    }

    /** `applyZero`: reads the domain, widens it to take in 0, writes it back. */
    method ApplyZero(config: ScaleConfig)
      modifies this
      ensures State() == ZeroStep(old(State()), config)
    {
      if config.zero == Some(true) {
        var d := domain;
        if |d| >= 2 {
          var a, b := d[0], d[1];
          var isDescending := b < a;
          var lo, hi := a, b;
          if isDescending {
            lo, hi := b, a;
          }
          var withZero := [Min(0.0, lo), Max(0.0, hi)];
          domain := if isDescending then [withZero[1], withZero[0]] else withZero;
        }
      }
    }

    /** `applyReverse`: replaces the range by a reversed copy. */
    method ApplyReverse(config: ScaleConfig)
      modifies this
      ensures State() == ReverseStep(old(State()), config)
    {
      if config.reverse == Some(true) {
        range := Reversed(range);
      }
    }

    /** `applyRound`. */
    method ApplyRound(config: ScaleConfig)
      modifies this
      ensures State() == RoundStep(old(State()), config, members)
    {
      if config.round.Some? {
        if config.round.value && config.interpolate.Some? {
          // visx warns and keeps the interpolator
        } else if "round" in members {
          round := config.round.value;
        } else if "interpolate" in members && config.round.value {
          interpolator := RoundInterpolator;
        }
      }
    }

    /** `applyPadding`. */
    method ApplyPadding(config: ScaleConfig)
      modifies this
      ensures State() == PaddingStep(old(State()), config, members)
    {
      if "padding" in members && config.padding.Some? {
        padding := config.padding.value;
      }
      if "paddingInner" in members && config.paddingInner.Some? {
        paddingInner := config.paddingInner.value;
      }
      if "paddingOuter" in members && config.paddingOuter.Some? {
        paddingOuter := config.paddingOuter.value;
      }
    }

    /** `operators[op](this, config)`. */
    method ApplyOp(op: Op, config: ScaleConfig)
      modifies this
      ensures State() == Step(op, old(State()), config, members)
    {
      match op {
        case Domain =>
          if config.domain.Some? {
            domain := config.domain.value;
          }
        case Nice =>
        case Zero =>
          ApplyZero(config);
        case Interpolate =>
          if config.interpolate.Some? && "interpolate" in members {
            interpolator := ColorInterpolator(config.interpolate.value);
          }
        case Round =>
          ApplyRound(config);
        case Range =>
          if config.range.Some? {
            range := config.range.value;
          }
        case Reverse =>
          ApplyReverse(config);
        case Align =>
          if "align" in members && config.align.Some? {
            align := config.align.value;
          }
        case Base =>
          if "base" in members && config.base.Some? {
            base := config.base.value;
          }
        case Clamp =>
          if "clamp" in members && config.clamp.Some? {
            clamp := config.clamp.value;
          }
        case Constant =>
          if "constant" in members && config.constant.Some? {
            constant := config.constant.value;
          }
        case Exponent =>
          if "exponent" in members && config.exponent.Some? {
            exponent := config.exponent.value;
          }
        case Padding =>
          ApplyPadding(config);
        case Unknown =>
          if "unknown" in members && config.unknown.Some? {
            unknown := config.unknown;
          }
      }
    }
  }

  /** The `applyOperators` closure of `scaleOperator`: with a config, each selected operator
      in turn; without one, nothing. Either way the same scale is returned. */
  method ApplyOperators(selectedOps: seq<Op>, scale: Scale, config: Option<ScaleConfig>) returns (result: Scale)
    modifies scale
    ensures result == scale
    ensures config.None? ==> scale.State() == old(scale.State())
    ensures config.Some? ==> scale.State() == ApplyAll(selectedOps, old(scale.State()), config.value, scale.members)
  {
    if config.Some? {
      var i := 0;
      while i < |selectedOps|
        invariant 0 <= i <= |selectedOps|
        invariant scale.State() == ApplyAll(selectedOps[..i], old(scale.State()), config.value, scale.members)
      {
        scale.ApplyOp(selectedOps[i], config.value);
        assert selectedOps[..i + 1][..i] == selectedOps[..i];
        i := i + 1;
      }
      assert selectedOps[..|selectedOps|] == selectedOps;
    }
    result := scale;
  }

  // ---------------------------------------------------------------------------
  // scale types, the per-type updaters and createScale
  // ---------------------------------------------------------------------------

  datatype ScaleType = Linear | Log | Pow | Sqrt | Symlog | Time | Utc | Quantile | Quantize
                     | Threshold | Ordinal | Point | Band
  {
    function Name(): string {
      match this
      case Linear => "linear"
      case Log => "log"
      case Pow => "pow"
      case Sqrt => "sqrt"
      case Symlog => "symlog"
      case Time => "time"
      case Utc => "utc"
      case Quantile => "quantile"
      case Quantize => "quantize"
      case Threshold => "threshold"
      case Ordinal => "ordinal"
      case Point => "point"
      case Band => "band"
    }
  }

  /** The `switch (config.type)` cases. */
  function ParseType(s: string): (r: Option<ScaleType>)
    ensures r.Some? ==> r.value.Name() == s
  {
    if s == "linear" then Some(Linear)
    else if s == "log" then Some(Log)
    else if s == "pow" then Some(Pow)
    else if s == "sqrt" then Some(Sqrt)
    else if s == "symlog" then Some(Symlog)
    else if s == "time" then Some(Time)
    else if s == "utc" then Some(Utc)
    else if s == "quantile" then Some(Quantile)
    else if s == "quantize" then Some(Quantize)
    else if s == "threshold" then Some(Threshold)
    else if s == "ordinal" then Some(Ordinal)
    else if s == "point" then Some(Point)
    else if s == "band" then Some(Band)
    else None
  }

  /** Every type's name is recognised as that type. */
  lemma ParseTypeName(t: ScaleType)
    ensures ParseType(t.Name()) == Some(t)
  {
  }

  /** The type `createScale` builds: the config's type when it is one of the thirteen names,
      linear for an undefined config, a missing type or any other name. */
  function CreateScaleType(config: Option<ScaleConfig>): (r: ScaleType)
    ensures config.Some? && config.value.scaleType.Some? && ParseType(config.value.scaleType.value).Some? ==>
      r.Name() == config.value.scaleType.value
    ensures config.None? || config.value.scaleType.None? || ParseType(config.value.scaleType.value).None? ==>
      r == Linear
  {
    if config.Some? && config.value.scaleType.Some? then
      match ParseType(config.value.scaleType.value)
      case Some(t) => t
      case None => Linear
    else Linear
  }

  /** The arguments each `update*Scale` passes to `scaleOperator`, in source order. */
  function UpdaterOps(t: ScaleType): seq<Op> {
    match t
    case Band => [Domain, Range, Reverse, Align, Padding, Round]
    case Point => [Domain, Range, Reverse, Align, Padding, Round]
    case Linear => [Domain, Range, Reverse, Clamp, Interpolate, Nice, Round, Zero]
    case Time => [Domain, Range, Reverse, Clamp, Interpolate, Nice, Round]
    case Utc => [Domain, Range, Reverse, Clamp, Interpolate, Nice, Round]
    case Log => [Domain, Range, Reverse, Base, Clamp, Interpolate, Nice, Round]
    case Pow => [Domain, Range, Reverse, Clamp, Exponent, Interpolate, Nice, Round, Zero]
    case Ordinal => [Domain, Range, Reverse, Unknown]
    case Quantize => [Domain, Range, Reverse, Nice, Zero]
    case Quantile => [Domain, Range, Reverse]
    case Symlog => [Domain, Range, Reverse, Clamp, Constant, Nice, Zero, Round]
    case Threshold => [Domain, Range, Reverse]
    case Sqrt => [Domain, Range, Reverse, Clamp, Interpolate, Nice, Round, Zero]
  }

  /** `updateRadialScale`'s arguments (radial is not reachable from `createScale`). */
  const RadialOps: seq<Op> := [Domain, Range, Clamp, Nice, Round, Unknown]

  /** The order in which a linear scale's operators run: the configured domain is in place
      before zero widens it, and the interpolator before round. */
  lemma LinearOrder()
    ensures SelectOps(UpdaterOps(Linear)) == [Domain, Nice, Zero, Interpolate, Round, Range, Reverse, Clamp]
  {
    SelectOpsExact(UpdaterOps(Linear), [Domain, Nice, Zero, Interpolate, Round, Range, Reverse, Clamp]);
  }

  /** Only `domain` and `zero` write the domain. */
  lemma StepDomain(op: Op, st: ScaleState, config: ScaleConfig, members: set<string>)
    requires op != Domain && op != Zero
    ensures Step(op, st, config, members).domain == st.domain
  {
  }

  /** Operators after the last `domain` or `zero` leave the domain as it was. */
  lemma {:induction false} DomainSettled(ops: seq<Op>, k: nat, st: ScaleState, config: ScaleConfig, members: set<string>)
    requires k <= |ops|
    requires forall i :: k <= i < |ops| ==> ops[i] != Domain && ops[i] != Zero
    ensures ApplyAll(ops, st, config, members).domain == ApplyAll(ops[..k], st, config, members).domain
    decreases |ops|
  {
    if |ops| > k {
      var init := ops[..|ops| - 1];
      assert init[..k] == ops[..k];
      DomainSettled(init, k, st, config, members);
      StepDomain(ops[|ops| - 1], ApplyAll(init, st, config, members), config, members);
    } else {
      assert ops[..k] == ops;
    }
  }

  /** When `domain`, `nice`, `zero` run first and no later operator writes the domain, a
      config with a domain and `zero: true` ends with that domain widened to take in 0. */
  lemma ZeroAfterDomain(ops: seq<Op>, st: ScaleState, config: ScaleConfig, members: set<string>)
    requires config.domain.Some? && config.zero == Some(true)
    requires |ops| >= 3 && ops[0] == Domain && ops[1] == Nice && ops[2] == Zero
    requires forall i :: 3 <= i < |ops| ==> ops[i] != Domain && ops[i] != Zero
    ensures ApplyAll(ops, st, config, members).domain == ZeroDomain(config.domain.value)
  {
    DomainSettled(ops, 3, st, config, members);
    var s1 := Step(Domain, st, config, members);
    var pre := ops[..3];
    assert pre[..2][..1] == ops[..1] && ops[..1][..0] == [];
    assert ApplyAll(pre[..1], st, config, members) == s1;
    assert ApplyAll(pre[..2], st, config, members) == Step(Nice, s1, config, members);
  }

  /** For a linear scale, a config with a domain and `zero: true` ends with that domain widened
      to take in 0. */
  lemma LinearZeroAfterDomain(st: ScaleState, config: ScaleConfig, members: set<string>)
    requires config.domain.Some? && config.zero == Some(true)
    ensures ApplyAll(SelectOps(UpdaterOps(Linear)), st, config, members).domain == ZeroDomain(config.domain.value)
  {
    var ops := [Domain, Nice, Zero, Interpolate, Round, Range, Reverse, Clamp];
    ZeroAfterDomain(ops, st, config, members);
    LinearOrder();
  }

  /** `createScale(config)`: dispatches on the type and runs that type's updater on the new
      d3 scale `scale`. */
  method CreateScale(config: Option<ScaleConfig>, scale: Scale) returns (result: Scale, t: ScaleType)
    modifies scale
    ensures t == CreateScaleType(config) && result == scale
    ensures config.None? ==> scale.State() == old(scale.State())
    ensures config.Some? ==>
      scale.State() == ApplyAll(SelectOps(UpdaterOps(t)), old(scale.State()), config.value, scale.members)
  {
    t := CreateScaleType(config);
    var selectedOps := ScaleOperator(UpdaterOps(t));
    result := ApplyOperators(selectedOps, scale, config);
  }

  // ---------------------------------------------------------------------------
  // scaleCanBeZeroed, inferScaleType
  // ---------------------------------------------------------------------------

  const ZeroableScaleTypes: set<string> := {"linear", "pow", "quantize", "sqrt", "symlog"}

  /** `zeroableScaleTypes.has(scaleConfig.type)`. */
  predicate ScaleCanBeZeroed(scaleType: Option<string>) {
    scaleType.Some? && scaleType.value in ZeroableScaleTypes
  }

  /** A config type can be zeroed exactly when its updater applies `zero`. */
  lemma ZeroableIffZeroOperator(t: ScaleType)
    ensures ScaleCanBeZeroed(Some(t.Name())) <==> Zero in UpdaterOps(t)
  {
  }

  /** The methods `inferScaleType` probes, in the order it probes them. */
  const InferProbes: seq<string> :=
    ["paddingInner", "padding", "quantiles", "base", "exponent", "constant", "clamp", "nice", "invertExtent"]

  /** The `i`-th probe is the first one the scale has. */
  predicate FirstProbe(members: set<string>, i: int)
    requires 0 <= i < |InferProbes|
  {
    InferProbes[i] in members && forall j :: 0 <= j < i ==> InferProbes[j] !in members
  }

  /** `inferScaleType(scale)`, given the scale's method names, the value of `scale.exponent()`,
      whether its first tick is a `Date`, and the `isUtcScale` test. The first matching method
      in `InferProbes` decides; a scale with none of them is ordinal. */
  function InferScaleType(members: set<string>, exponentValue: real, ticksAreDates: bool, isUtc: bool): (r: ScaleType)
    ensures r == Band <==> FirstProbe(members, 0)
    ensures r == Point <==> FirstProbe(members, 1)
    ensures r == Quantile <==> FirstProbe(members, 2)
    ensures r == Log <==> FirstProbe(members, 3)
    ensures r == Sqrt <==> FirstProbe(members, 4) && exponentValue == 0.5
    ensures r == Pow <==> FirstProbe(members, 4) && exponentValue != 0.5
    ensures r == Symlog <==> FirstProbe(members, 5)
    ensures r == Utc <==> FirstProbe(members, 6) && ticksAreDates && isUtc
    ensures r == Time <==> FirstProbe(members, 6) && ticksAreDates && !isUtc
    ensures r == Linear <==> FirstProbe(members, 6) && !ticksAreDates
    ensures r == Quantize <==> FirstProbe(members, 7)
    ensures r == Threshold <==> FirstProbe(members, 8)
    ensures r == Ordinal <==> forall i :: 0 <= i < |InferProbes| ==> InferProbes[i] !in members
  {
    if "paddingInner" in members then Band
    else if "padding" in members then Point
    else if "quantiles" in members then Quantile
    else if "base" in members then Log
    else if "exponent" in members then (if exponentValue == 0.5 then Sqrt else Pow)
    else if "constant" in members then Symlog
    else if "clamp" in members then (if ticksAreDates then (if isUtc then Utc else Time) else Linear)
    else if "nice" in members then Quantize
    else if "invertExtent" in members then Threshold
    else Ordinal
  }

  // ---------------------------------------------------------------------------
  // getTicks
  // ---------------------------------------------------------------------------

  /** `Math.round((len - 1) / n)` for `len - 1 >= 0` and `n > 0`: the nearest integer, halves
      rounded up. */
  function Stride(len: nat, n: nat): (k: int)
    requires n > 0 && len >= 1
    ensures n * (2 * k - 1) <= 2 * (len - 1) < n * (2 * k + 1)
  {
    var x := 2 * (len - 1) + n;
    var q := x / (2 * n);
    assert x == q * (2 * n) + x % (2 * n);
    q
  }

  /** Once the domain is longer than the tick count the stride is at least 1. */
  lemma StrideAtLeastOne(len: nat, n: nat)
    requires n > 0 && len > n
    ensures Stride(len, n) >= 1
  {
    var k := Stride(len, n);
    if k <= 0 {
      MulNonneg(n, -2 * k + 1);
    }
  }

  /** The `filter` of `getTicks` for a scale without `ticks`. A tick count of 0 divides by
      zero: the stride is `Infinity` (only index 0 is kept) for a longer domain and `NaN`
      (nothing is kept) for a one-value domain. */
  function TickFallback<T>(domain: seq<T>, numTicks: Option<nat>): seq<T> {
    if numTicks.None? || |domain| <= numTicks.value then domain
    else if numTicks.value == 0 then (if |domain| == 1 then [] else [domain[0]])
    else
      var k := Stride(|domain|, numTicks.value);
      KeepIndices(domain, (i: int) => k != 0 && i % k == 0, 0)
  }

  /** `getTicks(scale, numTicks)`: the scale's own `ticks(numTicks)` when it has them
      (`scaleTicks`), otherwise the domain fallback. */
  function GetTicks<T>(members: set<string>, scaleTicks: seq<T>, domain: seq<T>, numTicks: Option<nat>): (r: seq<T>)
    ensures "ticks" in members ==> r == scaleTicks
    ensures "ticks" !in members && (numTicks.None? || |domain| <= numTicks.value) ==> r == domain
  {
    if "ticks" in members then scaleTicks else TickFallback(domain, numTicks)
  }

  /** With a positive count smaller than the domain, the fallback takes every `k`th value from
      the first, where `k = round((len - 1) / numTicks) >= 1`: exactly the values at indices
      divisible by `k`, about `len / k` of them. */
  lemma TickFallbackStride<T>(domain: seq<T>, n: nat)
    requires 0 < n < |domain|
    ensures Stride(|domain|, n) >= 1
    ensures TickFallback(domain, Some(n)) == EveryNth(domain, Stride(|domain|, n))
    ensures TickFallback(domain, Some(n))[0] == domain[0]
    ensures |domain| <= |TickFallback(domain, Some(n))| * Stride(|domain|, n) < |domain| + Stride(|domain|, n)
    ensures forall j :: 0 <= j < |TickFallback(domain, Some(n))| ==>
      j * Stride(|domain|, n) < |domain| && TickFallback(domain, Some(n))[j] == domain[j * Stride(|domain|, n)]
  {
    var k := Stride(|domain|, n);
    StrideAtLeastOne(|domain|, n);
    var keep := (i: int) => k != 0 && i % k == 0;
    KeepMultiples(domain, keep, k, 0);
    EveryNthCount(domain, k);
    forall j | 0 <= j < |EveryNth(domain, k)|
      ensures j * k < |domain| && EveryNth(domain, k)[j] == domain[j * k]
    {
      EveryNthAt(domain, k, j);
    }
  }
}
