// Quantity (packages/uom/src/quantity.ts) and UomRegistry (packages/uom/src/uom.ts).
module Quantities {
  import opened Prelude
  import opened Bigint
  import opened Rounding

  const QUANTITY_SCALE: nat := 4
  const SCALE_FACTOR := 10000
  const QUANTITY_MAX_SCALED := 999999999999999999

  datatype Quantity = Quantity(scaled: int) {
    predicate Valid() {
      -QUANTITY_MAX_SCALED <= scaled <= QUANTITY_MAX_SCALED
    }
  }

  // 10^(4 - places): what divides a scaled value that uses at most that many places.
  function Unit(places: nat): int
    requires places <= QUANTITY_SCALE
  {
    if places == 4 then 1 else if places == 3 then 10 else if places == 2 then 100
    else if places == 1 then 1000 else 10000
  }

  // The getter's loop: strip zeros off the fraction, one place each.
  method UsedDecimals(q: Quantity) returns (d: nat)
    ensures d <= QUANTITY_SCALE
    ensures forall m: nat :: m <= QUANTITY_SCALE ==> (d <= m <==> q.scaled % Unit(m) == 0)
  {
    var n := Abs(TruncRem(q.scaled, SCALE_FACTOR));
    FractionDivides(q.scaled);
    if n == 0 { return 0; }
    d := QUANTITY_SCALE;
    ghost var whole := n;
    while n % 10 == 0
      invariant 0 < d <= QUANTITY_SCALE && 0 < n
      invariant whole == n * Unit(d) < SCALE_FACTOR
      decreases d
    {
      StripZero(n, d);
      n := n / 10;
      d := d - 1;
    }
    StrippedDivides(n, d);
  }

  lemma StripZero(n: nat, d: nat)
    requires 0 < d <= QUANTITY_SCALE && n % 10 == 0
    ensures n / 10 * Unit(d - 1) == n * Unit(d)
    ensures d == 1 ==> n * Unit(d) < SCALE_FACTOR ==> n == 0
  {
    var k := n / 10;
    assert n == 10 * k;
    match d
    case 1 =>
    case 2 => assert k * 1000 == 10 * k * 100;
    case 3 => assert k * 100 == 10 * k * 10;
    case 4 => assert k * 10 == 10 * k * 1;
  }

  // What is left when no zero can be stripped uses exactly d places.
  lemma StrippedDivides(n: nat, d: nat)
    requires 0 < d <= QUANTITY_SCALE && n % 10 != 0
    ensures forall m: nat :: m <= QUANTITY_SCALE ==> (d <= m <==> n * Unit(d) % Unit(m) == 0)
  {
    forall m: nat | m <= QUANTITY_SCALE ensures d <= m <==> n * Unit(d) % Unit(m) == 0 {
      StrippedDividesAt(n, d, m);
    }
  }

  lemma StrippedDividesAt(n: nat, d: nat, m: nat)
    requires 0 < d <= QUANTITY_SCALE && m <= QUANTITY_SCALE && n % 10 != 0
    ensures d <= m <==> n * Unit(d) % Unit(m) == 0
  {
    var u := n * Unit(d);
    if m >= d {
      DivideUnique(u, Unit(d), n, 0);
      Coarser(u, d, m);
    } else if u % Unit(m) == 0 {
      Coarser(u, m, d - 1);
      Divide(u, Unit(d - 1));
      TenUnits(d - 1, u / Unit(d - 1));
      DivideUnique(u, Unit(d), u / Unit(d - 1) * 10, 0);
      DivideUnique(u, Unit(d), n, 0);
      DivideUnique(n, 10, u / Unit(d - 1), 0);
    }
  }

  // What divides by a larger unit divides by a smaller one.
  lemma {:induction false} Coarser(u: nat, m: nat, k: nat)
    requires m <= k <= QUANTITY_SCALE && u % Unit(m) == 0
    ensures u % Unit(k) == 0
    decreases k - m
  {
    if m < k {
      Divide(u, Unit(m));
      TenUnits(m, u / Unit(m));
      DivideUnique(u, Unit(m + 1), u / Unit(m) * 10, 0);
      Coarser(u, m + 1, k);
    }
  }

  lemma TenUnits(m: nat, k: nat)
    requires m < QUANTITY_SCALE
    ensures k * Unit(m) == k * 10 * Unit(m + 1)
  {
    match m
    case 0 =>
    case 1 =>
    case 2 =>
    case 3 =>
  }

  lemma FractionDivides(v: int)
    ensures Abs(TruncRem(v, SCALE_FACTOR)) < SCALE_FACTOR
    ensures forall m: nat :: m <= QUANTITY_SCALE ==>
              (v % Unit(m) == 0 <==> Abs(TruncRem(v, SCALE_FACTOR)) % Unit(m) == 0)
  {
    TruncDivRem(v, SCALE_FACTOR);
    var n := Abs(TruncRem(v, SCALE_FACTOR));
    forall m: nat | m <= QUANTITY_SCALE ensures v % Unit(m) == 0 <==> n % Unit(m) == 0 {
      FractionDividesAt(Abs(v), m);
      NegatedDivides(v, m);
    }
  }

  lemma FractionDividesAt(v: nat, m: nat)
    requires m <= QUANTITY_SCALE
    ensures v % Unit(m) == 0 <==> v % SCALE_FACTOR % Unit(m) == 0
  {
    var a, n := v / SCALE_FACTOR, v % SCALE_FACTOR;
    Divide(v, SCALE_FACTOR);
    Divide(n, Unit(m));
    var q := n / Unit(m);
    match m
    case 0 => DivideUnique(v, 10000, a + q, n % 10000);
    case 1 => DivideUnique(v, 1000, 10 * a + q, n % 1000);
    case 2 => DivideUnique(v, 100, 100 * a + q, n % 100);
    case 3 => DivideUnique(v, 10, 1000 * a + q, n % 10);
    case 4 => DivideUnique(v, 1, 10000 * a + q, n % 1);
  }

  lemma NegatedDivides(v: int, m: nat)
    requires m <= QUANTITY_SCALE
    ensures Abs(v) % Unit(m) == 0 <==> v % Unit(m) == 0
  {
  }
}

module Uom {
  import opened Prelude
  import opened Rounding
  import opened Bigint
  import opened Quantities

  datatype Family = LENGTH | MASS | VOLUME | COUNT | EACH

  datatype Ratio = Ratio(num: int, den: int)

  datatype UomDef = UomDef(code: string, family: Family, perBase: Ratio, maxDecimals: int)

  // An explicit rule; a den left out is 1.
  datatype UomConversion = UomConversion(from: string, to: string, num: int, givenDen: Option<int>) {
    function Den(): int {
      if givenDen.Some? then givenDen.value else 1
    }
  }

  datatype UomError =
    | UnknownUom(code: string)
    | FamilyMismatch(from: string, to: string)
    | ConversionUnavailable(from: string, to: string)
    | FractionalUnit(code: string, maxDecimals: int)
    | InvalidUom(code: string)
    | InvalidConversion(from: string, to: string)
    | InexactConversion(from: string, to: string)
    | QuantityOverflow
    | ZeroDenominator

  const BUILTIN: map<string, UomDef> := map[
    "meter" := UomDef("meter", LENGTH, Ratio(1, 1), 4),
    "centimeter" := UomDef("centimeter", LENGTH, Ratio(1, 100), 4),
    "millimeter" := UomDef("millimeter", LENGTH, Ratio(1, 1000), 4),
    "gram" := UomDef("gram", MASS, Ratio(1, 1), 4),
    "kilogram" := UomDef("kilogram", MASS, Ratio(1000, 1), 4),
    "milliliter" := UomDef("milliliter", VOLUME, Ratio(1, 1), 4),
    "liter" := UomDef("liter", VOLUME, Ratio(1000, 1), 4),
    "piece" := UomDef("piece", COUNT, Ratio(1, 1), 0),
    "stem" := UomDef("stem", COUNT, Ratio(1, 1), 0),
    "dozen" := UomDef("dozen", COUNT, Ratio(12, 1), 0)]

  predicate ValidDef(u: UomDef) {
    && u.perBase.num > 0 && u.perBase.den > 0
    && 0 <= u.maxDecimals <= QUANTITY_SCALE
    && (u.family == COUNT ==> u.maxDecimals == 0)
  }

  predicate ValidConversion(c: UomConversion, units: map<string, UomDef>) {
    c.num > 0 && c.Den() > 0 && c.from in units && c.to in units
  }

  datatype Registry = Registry(units: map<string, UomDef>, conversions: seq<UomConversion>) {
    predicate Valid() {
      && (forall code :: code in units ==> ValidDef(units[code]) && units[code].code == code)
      && (forall i :: 0 <= i < |conversions| ==> ValidConversion(conversions[i], units))
    }
  }

  // The last definition of a code wins.
  function WithUnits(units: map<string, UomDef>, defs: seq<UomDef>): map<string, UomDef> {
    if defs == [] then units
    else
      var last := defs[|defs| - 1];
      WithUnits(units, defs[..|defs| - 1])[last.code := last]
  }

  ghost predicate FirstBadUnit(defs: seq<UomDef>, i: nat) {
    i < |defs| && !ValidDef(defs[i]) && forall j :: 0 <= j < i ==> ValidDef(defs[j])
  }

  ghost predicate FirstBadRule(defs: seq<UomDef>, conversions: seq<UomConversion>, i: nat) {
    && i < |conversions| && (forall j :: 0 <= j < |defs| ==> ValidDef(defs[j]))
    && !ValidConversion(conversions[i], WithUnits(BUILTIN, defs))
    && forall j :: 0 <= j < i ==> ValidConversion(conversions[j], WithUnits(BUILTIN, defs))
  }

  // The error names the first invalid unit, or, the units being valid, the first invalid rule.
  ghost predicate FirstRefused(defs: seq<UomDef>, conversions: seq<UomConversion>, e: UomError) {
    || (exists i: nat :: FirstBadUnit(defs, i) && e == InvalidUom(defs[i].code))
    || (exists i: nat ::
          FirstBadRule(defs, conversions, i) && e == InvalidConversion(conversions[i].from, conversions[i].to))
  }

  // The constructor: built-ins, then the given units in order, then the conversions;
  // it stops at the first unit or conversion that is not valid.
  method Create(defs: seq<UomDef>, conversions: seq<UomConversion>) returns (r: Result<Registry, UomError>)
    ensures r.Ok? <==>
            && (forall i :: 0 <= i < |defs| ==> ValidDef(defs[i]))
            && (forall i :: 0 <= i < |conversions| ==> ValidConversion(conversions[i], WithUnits(BUILTIN, defs)))
    ensures r.Ok? ==> r.value == Registry(WithUnits(BUILTIN, defs), conversions) && r.value.Valid()
    ensures r.Ok? ==> forall code :: code in r.value.units ==>
              var u := r.value.units[code];
              && u.code == code && u.perBase.num > 0 && u.perBase.den > 0 && 0 <= u.maxDecimals <= QUANTITY_SCALE
              && (u.family == COUNT ==> u.maxDecimals == 0)
    ensures r.Err? ==> FirstRefused(defs, conversions, r.error)
  {
    var units := BUILTIN;
    for i := 0 to |defs|
      invariant units == WithUnits(BUILTIN, defs[..i])
      invariant forall j :: 0 <= j < i ==> ValidDef(defs[j])
      invariant forall code :: code in units ==> ValidDef(units[code]) && units[code].code == code
    {
      if !ValidDef(defs[i]) {
        assert FirstBadUnit(defs, i);
        return Err(InvalidUom(defs[i].code));
      }
      assert defs[..i + 1][..i] == defs[..i];
      units := units[defs[i].code := defs[i]];
    }
    assert defs[..|defs|] == defs;
    for i := 0 to |conversions|
      invariant forall j :: 0 <= j < i ==> ValidConversion(conversions[j], units)
    {
      if !ValidConversion(conversions[i], units) {
        assert FirstBadRule(defs, conversions, i);
        return Err(InvalidConversion(conversions[i].from, conversions[i].to));
      }
    }
    return Ok(Registry(units, conversions));
  }

  // ---------------------------------------------------------------- resolution

  function Get(reg: Registry, code: string): Result<UomDef, UomError> {
    if code in reg.units then Ok(reg.units[code]) else Err(UnknownUom(code))
  }

  // Same-family ratio, or why there is none.
  function FamilyRatio(reg: Registry, from: string, to: string): Result<Ratio, UomError> {
    match Get(reg, from)
    case Err(e) => Err(e)
    case Ok(f) =>
      match Get(reg, to)
      case Err(e) => Err(e)
      case Ok(t) =>
        if f.family != t.family then Err(FamilyMismatch(from, to))
        else if f.family == EACH then Err(ConversionUnavailable(from, to))
        else Ok(Ratio(f.perBase.num * t.perBase.den, f.perBase.den * t.perBase.num))
  }

  // The first explicit conversion that joins the two codes, read in either direction.
  function ExplicitRatio(conversions: seq<UomConversion>, from: string, to: string): Option<Ratio> {
    if conversions == [] then None
    else
      var c := conversions[0];
      if c.from == from && c.to == to then Some(Ratio(c.num, c.Den()))
      else if c.from == to && c.to == from then Some(Ratio(c.Den(), c.num))
      else ExplicitRatio(conversions[1..], from, to)
  }

  function EffectiveRatio(reg: Registry, from: string, to: string): Result<Ratio, UomError> {
    if from == to then Ok(Ratio(1, 1))
    else RatioBetween(reg.conversions, reg, from, to)
  }

  // The first of these rules that joins two codes, else the ratio of their family.
  function RatioBetween(conversions: seq<UomConversion>, reg: Registry, from: string, to: string)
    : Result<Ratio, UomError>
  {
    match ExplicitRatio(conversions, from, to)
    case Some(r) => Ok(r)
    case None => FamilyRatio(reg, from, to)
  }

  function OfScaled(v: int): Result<Quantity, UomError> {
    if Quantity(v).Valid() then Ok(Quantity(v)) else Err(QuantityOverflow)
  }

  function RoundedBy(qty: Quantity, num: int, den: int, mode: Mode): Result<Quantity, UomError> {
    match DivRoundUom(qty.scaled * num, den, Named(mode))
    case Ok(v) => OfScaled(v)
    case Err(_) => Err(ZeroDenominator)
  }

  function ExactBy(qty: Quantity, num: int, den: int, from: string, to: string): Result<Quantity, UomError> {
    match DivRoundExact(qty.scaled * num, den)
    case Ok(v) => OfScaled(v)
    case Err(Inexact) => Err(InexactConversion(from, to))
    case Err(_) => Err(ZeroDenominator)
  }

  // convert and convertExact walk the conversions themselves, as the source does;
  // they do not call effectiveRatio.

  function ConvertVia(conversions: seq<UomConversion>, reg: Registry,
                      qty: Quantity, from: string, to: string, mode: Mode)
    : Result<Quantity, UomError>
  {
    if conversions == [] then
      match Get(reg, from)
      case Err(e) => Err(e)
      case Ok(f) =>
        match Get(reg, to)
        case Err(e) => Err(e)
        case Ok(t) =>
          if f.family != t.family then Err(FamilyMismatch(from, to))
          else if f.family == EACH then Err(ConversionUnavailable(from, to))
          else
            match DivRoundUom(qty.scaled * f.perBase.num * t.perBase.den, f.perBase.den * t.perBase.num, Named(mode))
            case Ok(v) => OfScaled(v)
            case Err(_) => Err(ZeroDenominator)
    else
      var c := conversions[0];
      if c.from == from && c.to == to then RoundedBy(qty, c.num, c.Den(), mode)
      else if c.from == to && c.to == from then RoundedBy(qty, c.Den(), c.num, mode)
      else ConvertVia(conversions[1..], reg, qty, from, to, mode)
  }

  function Convert(reg: Registry, qty: Quantity, from: string, to: string, mode: Mode): Result<Quantity, UomError> {
    if from == to then Ok(qty) else ConvertVia(reg.conversions, reg, qty, from, to, mode)
  }

  function ConvertExactVia(conversions: seq<UomConversion>, reg: Registry, qty: Quantity, from: string, to: string)
    : Result<Quantity, UomError>
  {
    if conversions == [] then
      match Get(reg, from)
      case Err(e) => Err(e)
      case Ok(f) =>
        match Get(reg, to)
        case Err(e) => Err(e)
        case Ok(t) =>
          if f.family != t.family then Err(FamilyMismatch(from, to))
          else if f.family == EACH then Err(ConversionUnavailable(from, to))
          else
            match DivRoundExact(qty.scaled * f.perBase.num * t.perBase.den, f.perBase.den * t.perBase.num)
            case Ok(v) => OfScaled(v)
            case Err(Inexact) => Err(InexactConversion(from, to))
            case Err(_) => Err(ZeroDenominator)
    else
      var c := conversions[0];
      if c.from == from && c.to == to then ExactBy(qty, c.num, c.Den(), from, to)
      else if c.from == to && c.to == from then ExactBy(qty, c.Den(), c.num, from, to)
      else ConvertExactVia(conversions[1..], reg, qty, from, to)
  }

  function ConvertExact(reg: Registry, qty: Quantity, from: string, to: string): Result<Quantity, UomError> {
    if from == to then Ok(qty) else ConvertExactVia(reg.conversions, reg, qty, from, to)
  }

  // ---------------------------------------------------------------- coherence

  lemma {:induction false} ExplicitPositive(reg: Registry, conversions: seq<UomConversion>, from: string, to: string)
    requires forall i :: 0 <= i < |conversions| ==> ValidConversion(conversions[i], reg.units)
    ensures ExplicitRatio(conversions, from, to).Some? ==>
              && ExplicitRatio(conversions, from, to).value.num > 0
              && ExplicitRatio(conversions, from, to).value.den > 0
              && from in reg.units && to in reg.units
  {
    if conversions != [] { ExplicitPositive(reg, conversions[1..], from, to); }
  }

  lemma RatioPositive(reg: Registry, from: string, to: string)
    requires reg.Valid()
    ensures EffectiveRatio(reg, from, to).Ok? ==>
              EffectiveRatio(reg, from, to).value.num > 0 && EffectiveRatio(reg, from, to).value.den > 0
  {
    ExplicitPositive(reg, reg.conversions, from, to);
    if from in reg.units && to in reg.units {
      var f, t := reg.units[from].perBase, reg.units[to].perBase;
      ScaleOrder(f.num, 0, t.den);
      ScaleOrder(f.den, 0, t.num);
    }
  }

  // convert is the rounded, and convertExact the exact-or-rejected, application of
  // the effective ratio: the same pairs resolve, and a pair that does not resolve
  // fails with the same error in all three.
  lemma ConvertAppliesRatio(reg: Registry, qty: Quantity, from: string, to: string, mode: Mode)
    requires reg.Valid() && qty.Valid()
    ensures var ratio := EffectiveRatio(reg, from, to);
            && (ratio.Err? ==>
                  && Convert(reg, qty, from, to, mode) == Err(ratio.error)
                  && ConvertExact(reg, qty, from, to) == Err(ratio.error))
            && (ratio.Ok? ==>
                  && Convert(reg, qty, from, to, mode) == RoundedBy(qty, ratio.value.num, ratio.value.den, mode)
                  && ConvertExact(reg, qty, from, to) == ExactBy(qty, ratio.value.num, ratio.value.den, from, to))
  {
    if from == to {
      assert qty.scaled * 1 == qty.scaled;
      DivRoundCorrect(qty.scaled, 1, mode, qty.scaled);
      assert qty.scaled == qty.scaled * 1;
    } else {
      ViaRatio(reg.conversions, reg, qty, from, to, mode);
    }
  }

  // So what they return is pinned by the ratio alone: the amount that the mode promises of the
  // worth, or the amount of exactly that worth; and otherwise only a worth no quantity can
  // hold, or one that is no multiple, is refused.
  lemma ConvertMeans(reg: Registry, qty: Quantity, from: string, to: string, mode: Mode, v: int)
    requires reg.Valid() && qty.Valid() && EffectiveRatio(reg, from, to).Ok?
    ensures var r := EffectiveRatio(reg, from, to).value;
            var rounded, exact := Convert(reg, qty, from, to, mode), ConvertExact(reg, qty, from, to);
            && (rounded == Ok(Quantity(v)) <==> Rounds(qty.scaled * r.num, r.den, mode, v) && Quantity(v).Valid())
            && (rounded.Err? ==> rounded.error == QuantityOverflow)
            && (exact == Ok(Quantity(v)) <==> v * r.den == qty.scaled * r.num && Quantity(v).Valid())
            && (exact == Err(InexactConversion(from, to)) <==> forall q :: qty.scaled * r.num != q * r.den)
            && (exact.Err? && exact != Err(InexactConversion(from, to)) ==> exact.error == QuantityOverflow)
  {
    ConvertAppliesRatio(reg, qty, from, to, mode);
    RatioPositive(reg, from, to);
    var r := EffectiveRatio(reg, from, to).value;
    RoundedMeans(qty, r.num, r.den, mode, v);
    ExactMeans(qty, r.num, r.den, from, to, v);
  }

  lemma RoundedMeans(qty: Quantity, num: int, den: int, mode: Mode, v: int)
    requires den > 0
    ensures RoundedBy(qty, num, den, mode) == Ok(Quantity(v)) <==>
              Rounds(qty.scaled * num, den, mode, v) && Quantity(v).Valid()
    ensures RoundedBy(qty, num, den, mode).Err? ==> RoundedBy(qty, num, den, mode).error == QuantityOverflow
  {
    DivRoundCorrect(qty.scaled * num, den, mode, v);
    DivRoundCorrect(qty.scaled * num, den, mode, RoundQuotient(qty.scaled * num, den, mode));
  }

  lemma ExactMeans(qty: Quantity, num: int, den: int, from: string, to: string, v: int)
    requires den > 0
    ensures var exact := ExactBy(qty, num, den, from, to);
            && (exact == Ok(Quantity(v)) <==> v * den == qty.scaled * num && Quantity(v).Valid())
            && (exact == Err(InexactConversion(from, to)) <==> forall q :: qty.scaled * num != q * den)
            && (exact.Err? && exact != Err(InexactConversion(from, to)) ==> exact.error == QuantityOverflow)
  {
    var d := DivRoundExact(qty.scaled * num, den);
    if v * den == qty.scaled * num { Cancel(d.value, v, den); }
  }

  lemma {:induction false} ViaRatio(conversions: seq<UomConversion>, reg: Registry,
                                    qty: Quantity, from: string, to: string, mode: Mode)
    ensures var ratio := RatioBetween(conversions, reg, from, to);
            && (ratio.Err? ==>
                  && ConvertVia(conversions, reg, qty, from, to, mode) == Err(ratio.error)
                  && ConvertExactVia(conversions, reg, qty, from, to) == Err(ratio.error))
            && (ratio.Ok? ==>
                  && ConvertVia(conversions, reg, qty, from, to, mode)
                     == RoundedBy(qty, ratio.value.num, ratio.value.den, mode)
                  && ConvertExactVia(conversions, reg, qty, from, to)
                     == ExactBy(qty, ratio.value.num, ratio.value.den, from, to))
  {
    if conversions == [] {
      if from in reg.units && to in reg.units {
        var f, t := reg.units[from].perBase, reg.units[to].perBase;
        assert qty.scaled * f.num * t.den == qty.scaled * (f.num * t.den);
      }
    } else {
      ViaRatio(conversions[1..], reg, qty, from, to, mode);
    }
  }

  lemma {:induction false} ExplicitSwap(conversions: seq<UomConversion>, from: string, to: string)
    requires from != to
    ensures var there, back := ExplicitRatio(conversions, from, to), ExplicitRatio(conversions, to, from);
            && (there.None? <==> back.None?)
            && (there.Some? ==> back.value == Ratio(there.value.den, there.value.num))
  {
    if conversions != [] { ExplicitSwap(conversions[1..], from, to); }
  }

  // The ratio back is the ratio turned over; one direction resolves when the other does.
  lemma RatioSwap(reg: Registry, from: string, to: string)
    ensures EffectiveRatio(reg, from, to).Ok? <==> EffectiveRatio(reg, to, from).Ok?
    ensures EffectiveRatio(reg, from, to).Ok? ==>
              EffectiveRatio(reg, to, from).value ==
              Ratio(EffectiveRatio(reg, from, to).value.den, EffectiveRatio(reg, from, to).value.num)
  {
    if from != to {
      ExplicitSwap(reg.conversions, from, to);
      if from in reg.units && to in reg.units {
        var f, t := reg.units[from].perBase, reg.units[to].perBase;
        assert f.num * t.den == t.den * f.num && f.den * t.num == t.num * f.den;
      }
    }
  }

  ghost predicate Joins(c: UomConversion, a: string, b: string) {
    (c.from == a && c.to == b) || (c.from == b && c.to == a)
  }

  // Rule i is the first that joins the two codes.
  ghost predicate FirstRule(conversions: seq<UomConversion>, i: nat, a: string, b: string) {
    && i < |conversions| && Joins(conversions[i], a, b)
    && forall j :: 0 <= j < i ==> !Joins(conversions[j], a, b)
  }

  function ReadAs(c: UomConversion, from: string, to: string): Ratio {
    if c.from == from && c.to == to then Ratio(c.num, c.Den()) else Ratio(c.Den(), c.num)
  }

  lemma {:induction false} ExplicitMeans(conversions: seq<UomConversion>, from: string, to: string)
    ensures ExplicitRatio(conversions, from, to).None? ==>
              forall i :: 0 <= i < |conversions| ==> !Joins(conversions[i], from, to)
    ensures forall i: nat :: FirstRule(conversions, i, from, to) ==>
              ExplicitRatio(conversions, from, to) == Some(ReadAs(conversions[i], from, to))
  {
    if conversions != [] {
      ExplicitMeans(conversions[1..], from, to);
      forall i: nat | FirstRule(conversions, i, from, to)
        ensures ExplicitRatio(conversions, from, to) == Some(ReadAs(conversions[i], from, to))
      {
        if i > 0 {
          assert !Joins(conversions[0], from, to);
          assert FirstRule(conversions[1..], i - 1, from, to);
        }
      }
    }
  }

  // What a ratio means. The first rule that joins the two codes wins, read as written or
  // turned over; without one, both units must be known and of one family with physical
  // sizes, and num to-units are worth den from-units by the units' own sizes.
  lemma RatioMeans(reg: Registry, from: string, to: string)
    requires reg.Valid() && from != to
    ensures forall i: nat :: FirstRule(reg.conversions, i, from, to) ==>
              EffectiveRatio(reg, from, to) == Ok(ReadAs(reg.conversions[i], from, to))
    ensures forall i: nat :: FirstRule(reg.conversions, i, from, to) && reg.conversions[i].givenDen.None? ==>
              EffectiveRatio(reg, from, to) ==
              Ok(if reg.conversions[i].from == from then Ratio(reg.conversions[i].num, 1)
                 else Ratio(1, reg.conversions[i].num))
    ensures (forall i :: 0 <= i < |reg.conversions| ==> !Joins(reg.conversions[i], from, to)) ==>
              && (EffectiveRatio(reg, from, to).Ok? <==> SameFamily(reg, from, to))
              && (EffectiveRatio(reg, from, to).Err? ==>
                    EffectiveRatio(reg, from, to).error == Unresolvable(reg, from, to))
              && (SameFamily(reg, from, to) ==>
                    SameWorth(EffectiveRatio(reg, from, to).value, reg.units[from], reg.units[to]))
  {
    ExplicitMeans(reg.conversions, from, to);
    if forall i :: 0 <= i < |reg.conversions| ==> !Joins(reg.conversions[i], from, to) {
      NoRule(reg.conversions, from, to);
      if SameFamily(reg, from, to) {
        CrossProducts(reg.units[from].perBase, reg.units[to].perBase);
      }
    }
  }

  lemma {:induction false} NoRule(conversions: seq<UomConversion>, from: string, to: string)
    requires forall i :: 0 <= i < |conversions| ==> !Joins(conversions[i], from, to)
    ensures ExplicitRatio(conversions, from, to).None?
  {
    if conversions != [] {
      assert !Joins(conversions[0], from, to);
      NoRule(conversions[1..], from, to);
    }
  }

  predicate SameFamily(reg: Registry, from: string, to: string) {
    from in reg.units && to in reg.units
    && reg.units[from].family == reg.units[to].family && reg.units[from].family != EACH
  }

  // Why two codes without a rule do not resolve: the first unknown code, different
  // families, or a family without sizes.
  function Unresolvable(reg: Registry, from: string, to: string): UomError {
    if from !in reg.units then UnknownUom(from)
    else if to !in reg.units then UnknownUom(to)
    else if reg.units[from].family != reg.units[to].family then FamilyMismatch(from, to)
    else ConversionUnavailable(from, to)
  }

  // r.num of `to` measure as much of the base unit as r.den of `from`.
  ghost predicate SameWorth(r: Ratio, from: UomDef, to: UomDef) {
    (r.num * to.perBase.num) * from.perBase.den == (r.den * from.perBase.num) * to.perBase.den
  }

  lemma CrossProducts(f: Ratio, t: Ratio)
    ensures ((f.num * t.den) * t.num) * f.den == ((f.den * t.num) * f.num) * t.den
  {
    var w := f.num * t.num;
    assert (f.num * t.den) * t.num == w * t.den;
    assert (f.den * t.num) * f.num == w * f.den;
    assert (w * t.den) * f.den == (w * f.den) * t.den;
  }

  // A code means the last of the given units with that code, or else the built-in one.
  lemma {:induction false} LastUnitWins(units: map<string, UomDef>, defs: seq<UomDef>, code: string)
    ensures code in WithUnits(units, defs) <==> code in units || exists i :: 0 <= i < |defs| && defs[i].code == code
    ensures forall i | 0 <= i < |defs| && defs[i].code == code ::
              (forall j :: i < j < |defs| ==> defs[j].code != code) ==> WithUnits(units, defs)[code] == defs[i]
    ensures (forall i :: 0 <= i < |defs| ==> defs[i].code != code) && code in units ==>
              WithUnits(units, defs)[code] == units[code]
  {
    if defs != [] {
      var init, last := defs[..|defs| - 1], defs[|defs| - 1];
      LastUnitWins(units, init, code);
      assert forall i :: 0 <= i < |init| ==> init[i] == defs[i];
    }
  }

  // One unit of a is n of b, exactly.
  ghost predicate Makes(a: string, n: nat, b: string) {
    var reg := Registry(BUILTIN, []);
    && a in BUILTIN && b in BUILTIN && BUILTIN[a].family == BUILTIN[b].family
    && EffectiveRatio(reg, a, b).Ok? && EffectiveRatio(reg, a, b).value.num == n * EffectiveRatio(reg, a, b).value.den
  }

  // The built-in units: ten codes in four families, their sizes, and whole counts only.
  lemma BuiltinSizes()
    ensures BUILTIN.Keys ==
            {"meter", "centimeter", "millimeter", "gram", "kilogram", "milliliter", "liter", "piece", "stem", "dozen"}
    ensures Makes("meter", 100, "centimeter") && Makes("centimeter", 10, "millimeter")
    ensures Makes("kilogram", 1000, "gram") && Makes("liter", 1000, "milliliter")
    ensures Makes("dozen", 12, "piece") && Makes("stem", 1, "piece")
    ensures forall a, b :: a in BUILTIN && b in BUILTIN ==>
              (BUILTIN[a].family == BUILTIN[b].family <==> EffectiveRatio(Registry(BUILTIN, []), a, b).Ok?)
    ensures forall a :: a in BUILTIN ==>
              BUILTIN[a].maxDecimals == if a in {"piece", "stem", "dozen"} then 0 else QUANTITY_SCALE
  {
  }

  // Built-in sizes: a kilogram is a thousand grams, a dozen is twelve pieces.
  lemma BuiltinRatios()
    ensures var reg := Registry(BUILTIN, []);
            && reg.Valid()
            && ConvertExact(reg, Quantity(10000), "kilogram", "gram") == Ok(Quantity(10000000))
            && ConvertExact(reg, Quantity(20000), "dozen", "piece") == Ok(Quantity(240000))
            && ConvertExact(reg, Quantity(10000), "piece", "dozen") == Err(InexactConversion("piece", "dozen"))
  {
    assert DivRoundExact(10000 * 1000 * 1, 1 * 1) == Ok(10000000);
    assert DivRoundExact(20000 * 12 * 1, 1 * 1) == Ok(240000);
  }

  // An exact conversion can always be undone exactly.
  lemma ExactRoundTrip(reg: Registry, qty: Quantity, from: string, to: string)
    requires reg.Valid() && qty.Valid()
    requires ConvertExact(reg, qty, from, to).Ok?
    ensures ConvertExact(reg, ConvertExact(reg, qty, from, to).value, to, from) == Ok(qty)
  {
    var there := ConvertExact(reg, qty, from, to).value;
    ConvertAppliesRatio(reg, qty, from, to, DOWN);
    RatioSwap(reg, from, to);
    RatioPositive(reg, from, to);
    ConvertAppliesRatio(reg, there, to, from, DOWN);
    var r := EffectiveRatio(reg, from, to).value;
    assert qty.scaled * r.num == there.scaled * r.den;
    var back := DivRoundExact(there.scaled * r.den, r.num);
    assert there.scaled * r.den == qty.scaled * r.num;
    assert back.Ok?;
    Cancel(back.value, qty.scaled, r.num);
  }

  lemma Cancel(x: int, y: int, k: int)
    requires k > 0 && x * k == y * k
    ensures x == y
  {
    Gap(x, y, k);
    Gap(y, x, k);
  }

  // Without explicit rules, ratios inside a family compose: going through a middle
  // unit multiplies to the same rational number as going directly.
  lemma RatiosCompose(reg: Registry, a: string, b: string, c: string)
    requires reg.Valid()
    requires a != b && b != c && a != c
    requires ExplicitRatio(reg.conversions, a, b).None?
    requires ExplicitRatio(reg.conversions, b, c).None?
    requires ExplicitRatio(reg.conversions, a, c).None?
    requires EffectiveRatio(reg, a, b).Ok? && EffectiveRatio(reg, b, c).Ok?
    ensures EffectiveRatio(reg, a, c).Ok?
    ensures var ab, bc, ac := EffectiveRatio(reg, a, b).value, EffectiveRatio(reg, b, c).value,
                              EffectiveRatio(reg, a, c).value;
            ab.num * bc.num * ac.den == ac.num * (ab.den * bc.den)
  {
    var p, q, r := reg.units[a].perBase, reg.units[b].perBase, reg.units[c].perBase;
    Crossed(p.num, p.den, q.num, q.den, r.num, r.den);
  }

  lemma Crossed(pn: int, pd: int, qn: int, qd: int, rn: int, rd: int)
    ensures (pn * qd) * (qn * rd) * (pd * rn) == (pn * rd) * ((pd * qn) * (qd * rn))
  {
    Commute(qd, qn * rd);
    assert (pn * qd) * (qn * rd) == pn * (qd * (qn * rd));
    assert qd * (qn * rd) == rd * (qn * qd);
    assert pn * (rd * (qn * qd)) == (pn * rd) * (qn * qd);
    var x := pn * rd;
    assert (pd * qn) * (qd * rn) == (qn * qd) * (pd * rn) by {
      assert (pd * qn) * (qd * rn) == pd * (qn * (qd * rn));
      assert qn * (qd * rn) == (qn * qd) * rn;
      var y := qn * qd;
      assert pd * (y * rn) == y * (pd * rn);
    }
    var y, z := qn * qd, pd * rn;
    assert x * y * z == x * (y * z);
  }

  lemma Commute(x: int, y: int)
    ensures x * y == y * x
  {
  }

  // An availability check that rounds DOWN never overstates: the converted amount,
  // turned back, is at most what there was.
  lemma DownNeverOverstates(reg: Registry, qty: Quantity, from: string, to: string)
    requires reg.Valid() && qty.Valid() && qty.scaled >= 0
    requires Convert(reg, qty, from, to, DOWN).Ok?
    ensures EffectiveRatio(reg, from, to).Ok?
    ensures var r := EffectiveRatio(reg, from, to).value;
            var got := Convert(reg, qty, from, to, DOWN).value.scaled;
            0 <= got && got * r.den <= qty.scaled * r.num < got * r.den + r.den
  {
    ConvertAppliesRatio(reg, qty, from, to, DOWN);
    RatioPositive(reg, from, to);
    var r := EffectiveRatio(reg, from, to).value;
    var got := Convert(reg, qty, from, to, DOWN).value.scaled;
    DivRoundCorrect(qty.scaled * r.num, r.den, DOWN, got);
    ScaleOrder(r.num, 0, qty.scaled);
    Gap(got + 1, 0, r.den);
    Gap(got, 0, r.den);
  }

  // assertPermitted.
  method AssertPermitted(reg: Registry, qty: Quantity, code: string) returns (r: Result<(), UomError>)
    requires reg.Valid()
    ensures code !in reg.units ==> r == Err(UnknownUom(code))
    ensures code in reg.units ==>
              (r.Ok? <==> qty.scaled % Unit(reg.units[code].maxDecimals) == 0)
    ensures code in reg.units && r.Err? ==> r == Err(FractionalUnit(code, reg.units[code].maxDecimals))
  {
    match Get(reg, code)
    case Err(e) => return Err(e);
    case Ok(unit) =>
      var used := UsedDecimals(qty);
      if used > unit.maxDecimals { return Err(FractionalUnit(unit.code, unit.maxDecimals)); }
      return Ok(());
  }
}
