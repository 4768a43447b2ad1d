// bigint division and the rounding of exact quotients
// (packages/money/src/rounding.ts, packages/uom/src/rounding.ts).
module Bigint {
  // JavaScript's bigint `/` and `%` for a positive divisor: the quotient is cut
  // toward zero and the remainder takes the dividend's sign.
  function TruncDiv(n: int, d: int): int
    requires d > 0
  {
    if n < 0 then -(-n / d) else n / d
  }

  function TruncRem(n: int, d: int): int
    requires d > 0
  {
    if n < 0 then -(-n % d) else n % d
  }

  lemma TruncDivRem(n: int, d: int)
    requires d > 0
    ensures TruncDiv(n, d) * d + TruncRem(n, d) == n
    ensures -d < TruncRem(n, d) < d
    ensures n >= 0 ==> TruncRem(n, d) >= 0
    ensures n <= 0 ==> TruncRem(n, d) <= 0
  {
    Divide(if n < 0 then -n else n, d);
  }

  lemma Divide(m: nat, d: int)
    requires d > 0
    ensures m == m / d * d + m % d && 0 <= m % d < d && 0 <= m / d
    ensures -(m / d) * d == -(m / d * d)
  {
  }

  lemma DivideUnique(m: nat, d: int, q: int, r: int)
    requires d > 0 && m == q * d + r && 0 <= r < d
    ensures m / d == q && m % d == r
  {
    Divide(m, d);
    Gap(m / d, q, d);
    Gap(q, m / d, d);
  }

  // Multiples of d are at least d apart.
  lemma Gap(p: int, q: int, d: int)
    requires d > 0
    ensures p < q ==> p * d + d <= q * d
    ensures p + 1 < q ==> p * d + 2 * d <= q * d
    ensures (p + 1) * d == p * d + d
    ensures -p * d == -(p * d)
  {
    if p < q { GapAbove(q - p, d); }
    assert p * d + (q - p) * d == q * d;
  }

  lemma GapAbove(k: int, d: int)
    requires d > 0 && k > 0
    ensures k * d >= d
    ensures k > 1 ==> k * d >= 2 * d
  {
    if k > 1 {
      assert (k - 2) * d >= 0;
      assert k * d == (k - 2) * d + 2 * d;
    }
  }
}

module Rounding {
  import opened Prelude
  import opened Bigint

  datatype Mode = HALF_UP | HALF_EVEN | DOWN | UP | HALF_DOWN

  datatype RoundingError = DenominatorNotPositive | Inexact | UnrecognisedMode

  // The rounded magnitude of a non-negative numerator.
  function RoundMagnitude(n: nat, d: int, mode: Mode): nat
    requires d > 0
  {
    var q, r := n / d, n % d;
    if r != 0 && RoundsUp(q, r, d, mode) then q + 1 else q
  }

  // Whether a non-zero remainder takes the quotient up.
  predicate RoundsUp(q: nat, r: nat, d: int, mode: Mode) {
    var twice := r * 2;
    match mode
    case DOWN => false
    case UP => true
    case HALF_DOWN => twice > d
    case HALF_UP => twice >= d
    case HALF_EVEN => twice > d || (twice == d && q % 2 == 1)
  }

  function Signed(n: int, magnitude: nat): int {
    if n < 0 then -(magnitude as int) else magnitude
  }

  function RoundQuotient(n: int, d: int, mode: Mode): int
    requires d > 0
  {
    Signed(n, RoundMagnitude(Abs(n), d, mode))
  }

  // A mode as it may arrive at run time: one of the five, or text that is none of them.
  datatype ModeArgument = Named(mode: Mode) | Unrecognised

  // packages/money: an unrecognised mode is refused, but only where rounding is called for.
  function DivRoundMoney(n: int, d: int, m: ModeArgument): (r: Result<int, RoundingError>)
    ensures d > 0 && m.Named? ==> r == Ok(RoundQuotient(n, d, m.mode))
  {
    if d <= 0 then Err(DenominatorNotPositive)
    else
      var q, r := Abs(n) / d, Abs(n) % d;
      if r == 0 then Ok(Signed(n, q))
      else
        match m
        case Named(mode) => Ok(Signed(n, if RoundsUp(q, r, d, mode) then q + 1 else q))
        case Unrecognised => Err(UnrecognisedMode)
  }

  // packages/uom: an unrecognised mode leaves `roundUp` unset, which reads as false.
  function DivRoundUom(n: int, d: int, m: ModeArgument): (r: Result<int, RoundingError>)
    ensures d > 0 && m.Named? ==> r == Ok(RoundQuotient(n, d, m.mode))
  {
    if d <= 0 then Err(DenominatorNotPositive)
    else
      var q, r := Abs(n) / d, Abs(n) % d;
      if r == 0 then Ok(Signed(n, q))
      else
        var roundUp := match m
          case Named(mode) => RoundsUp(q, r, d, mode)
          case Unrecognised => false;
        Ok(Signed(n, if roundUp then q + 1 else q))
  }

  // Exact or rejected.
  function DivRoundExact(n: int, d: int): (r: Result<int, RoundingError>)
    ensures r.Ok? <==> d > 0 && exists q :: n == q * d
    ensures r.Ok? ==> n == r.value * d
    ensures r == Err(DenominatorNotPositive) <==> d <= 0
  {
    if d <= 0 then Err(DenominatorNotPositive)
    else
      TruncDivRem(n, d);
      if TruncRem(n, d) != 0 then
        NotAMultiple(n, d);
        Err(Inexact)
      else Ok(TruncDiv(n, d))
  }

  lemma NotAMultiple(n: int, d: int)
    requires d > 0 && TruncRem(n, d) != 0
    ensures forall q :: n != q * d
  {
    TruncDivRem(n, d);
    var t := TruncDiv(n, d);
    forall q ensures n != q * d {
      Gap(t, q, d);
      Gap(q, t, d);
    }
  }

  // What each mode promises of q as the rounding of n / d, said without dividing:
  // the direction for DOWN and UP; nearness and the tie rule for the HALF modes.
  ghost predicate Rounds(n: int, d: int, mode: Mode, q: int) {
    RoundsTo(n, d, mode, q * d, q % 2 == 0)
  }

  // p is the multiple of d chosen; even says whether its quotient is even.
  ghost predicate RoundsTo(n: int, d: int, mode: Mode, p: int, even: bool) {
    match mode
    case DOWN => if n < 0 then p - d < n <= p else p <= n < p + d
    case UP => if n < 0 then p <= n < p + d else p - d < n <= p
    case HALF_UP => Near(n, d, p) && (Tie(n, d, p) ==> if n < 0 then p < n else p > n)
    case HALF_DOWN => Near(n, d, p) && (Tie(n, d, p) ==> if n < 0 then p > n else p < n)
    case HALF_EVEN => Near(n, d, p) && (Tie(n, d, p) ==> even)
  }

  ghost predicate Near(n: int, d: int, p: int) {
    -d <= 2 * (p - n) <= d
  }

  ghost predicate Tie(n: int, d: int, p: int) {
    2 * (p - n) == d || 2 * (p - n) == -d
  }

  lemma QuotientRounds(n: int, d: int, mode: Mode)
    requires d > 0
    ensures Rounds(n, d, mode, RoundQuotient(n, d, mode))
  {
    MagnitudeRounds(Abs(n), d, mode);
    if n < 0 { NegatedRounds(-n, d, mode, RoundMagnitude(-n, d, mode)); }
  }

  lemma MagnitudeRounds(n: nat, d: int, mode: Mode)
    requires d > 0
    ensures Rounds(n, d, mode, RoundMagnitude(n, d, mode))
  {
    Divide(n, d);
    Gap(n / d, 0, d);
  }

  lemma NegatedRounds(n: int, d: int, mode: Mode, q: int)
    requires n > 0 && Rounds(n, d, mode, q)
    ensures Rounds(-n, d, mode, -q)
  {
    assert -q * d == -(q * d);
  }

  lemma RoundsUnique(n: int, d: int, mode: Mode, p: int, q: int)
    requires d > 0
    requires Rounds(n, d, mode, p) && Rounds(n, d, mode, q)
    ensures p == q
  {
    Gap(p, q, d);
    Gap(q, p, d);
  }

  // divRound returns q exactly when q is what the mode promises, in both packages.
  lemma DivRoundCorrect(n: int, d: int, mode: Mode, q: int)
    ensures DivRoundMoney(n, d, Named(mode)) == Ok(q) <==> d > 0 && Rounds(n, d, mode, q)
    ensures DivRoundMoney(n, d, Named(mode)) == Err(DenominatorNotPositive) <==> d <= 0
    ensures DivRoundUom(n, d, Named(mode)) == DivRoundMoney(n, d, Named(mode))
  {
    if d > 0 {
      QuotientRounds(n, d, mode);
      if Rounds(n, d, mode, q) {
        RoundsUnique(n, d, mode, RoundQuotient(n, d, mode), q);
      }
    }
  }

  // The two copies agree exactly when the mode is one of the five, the denominator is
  // refused anyway, or the division is exact; elsewhere money refuses and uom cuts toward zero.
  lemma PackagesAgreeExactly(n: int, d: int, m: ModeArgument)
    ensures DivRoundMoney(n, d, m) == DivRoundUom(n, d, m) <==> m.Named? || d <= 0 || exists q :: n == q * d
    ensures m.Named? && d > 0 ==> DivRoundMoney(n, d, m) == Ok(RoundQuotient(n, d, m.mode))
    ensures m.Unrecognised? && d > 0 ==> DivRoundUom(n, d, m) == Ok(RoundQuotient(n, d, DOWN))
  {
    if d > 0 {
      TruncDivRem(n, d);
      if TruncRem(n, d) == 0 {
        assert n == TruncDiv(n, d) * d;
      } else {
        NotAMultiple(n, d);
      }
    }
  }

  // One half in a mode that is none of the five.
  lemma PackagesDisagree()
    ensures DivRoundMoney(1, 2, Unrecognised) == Err(UnrecognisedMode) && DivRoundUom(1, 2, Unrecognised) == Ok(0)
  {
    DivideUnique(1, 2, 0, 1);
  }

  lemma DivRoundOdd(n: int, d: int, mode: Mode)
    requires d > 0
    ensures RoundQuotient(-n, d, mode) == -RoundQuotient(n, d, mode)
  {
    Divide(Abs(n), d);
    if n == 0 {
      Gap(0, 0 / d, d);
    }
  }

  lemma WithinOneUnit(n: int, d: int, mode: Mode)
    requires d > 0
    ensures -d < RoundQuotient(n, d, mode) * d - n < d
    ensures !mode.DOWN? && !mode.UP? ==> Near(n, d, RoundQuotient(n, d, mode) * d)
  {
    QuotientRounds(n, d, mode);
  }

  lemma DivRoundMonotone(n: int, m: int, d: int, mode: Mode)
    requires d > 0 && n <= m
    ensures RoundQuotient(n, d, mode) <= RoundQuotient(m, d, mode)
  {
    var p, q := RoundQuotient(n, d, mode), RoundQuotient(m, d, mode);
    QuotientRounds(n, d, mode);
    QuotientRounds(m, d, mode);
    Gap(q, p, d);
    Gap(p, 0, d);
    Gap(q, 0, d);
    Gap(0, p, d);
    Gap(0, q, d);
  }

  // Rounding sees only the value of a ratio, not how it is written: convert may
  // pass unreduced cross products.
  lemma DivRoundScaled(n: int, d: int, k: int, mode: Mode)
    requires d > 0 && k > 0
    ensures k * d > 0
    ensures RoundQuotient(k * n, k * d, mode) == RoundQuotient(n, d, mode)
  {
    var q := RoundQuotient(n, d, mode);
    QuotientRounds(n, d, mode);
    ScaleOrder(k, 0, d);
    ScaledRounds(n, d, k, mode, q);
    QuotientRounds(k * n, k * d, mode);
    RoundsUnique(k * n, k * d, mode, q, RoundQuotient(k * n, k * d, mode));
  }

  lemma ScaleOrder(k: int, x: int, y: int)
    requires k > 0
    ensures x < y <==> k * x < k * y
    ensures x <= y <==> k * x <= k * y
    ensures x == y <==> k * x == k * y
  {
    Gap(x, y, k);
    Gap(y, x, k);
  }

  lemma ScaledRounds(n: int, d: int, k: int, mode: Mode, q: int)
    requires d > 0 && k > 0
    requires Rounds(n, d, mode, q)
    ensures Rounds(k * n, k * d, mode, q)
  {
    ScaledRoundsTo(n, d, k, mode, q * d, q % 2 == 0);
    assert q * (k * d) == k * (q * d);
  }

  lemma ScaledRoundsTo(n: int, d: int, k: int, mode: Mode, p: int, even: bool)
    requires d > 0 && k > 0
    requires RoundsTo(n, d, mode, p, even)
    ensures RoundsTo(k * n, k * d, mode, k * p, even)
  {
    Distribute(k, p, d, n);
    ScaleOrder(k, n, 0);
    ScaleOrder(k, p, n);
    ScaleOrder(k, n, p);
    ScaleOrder(k, p - d, n);
    ScaleOrder(k, n, p + d);
    ScaleOrder(k, -d, 2 * (p - n));
    ScaleOrder(k, 2 * (p - n), d);
  }

  lemma Distribute(k: int, p: int, d: int, n: int)
    ensures k * (p - d) == k * p - k * d
    ensures k * (p + d) == k * p + k * d
    ensures k * (2 * (p - n)) == 2 * (k * p - k * n)
    ensures k * -d == -(k * d)
  {
  }
}
