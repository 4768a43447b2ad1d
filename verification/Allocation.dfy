// Money.allocate and Money.capAllocate (packages/money/src/money.ts).
module Allocation {
  import opened Prelude
  import opened Bigint
  import opened Rounding

  // The storable range of a minor-unit amount: a signed 64-bit integer.
  const MONEY_MAX_MINOR := 9223372036854775807
  const MONEY_MIN_MINOR := -9223372036854775808

  datatype Money = Money(amountMinor: int, currency: string) {
    predicate Valid() {
      MONEY_MIN_MINOR <= amountMinor <= MONEY_MAX_MINOR
    }
  }

  datatype MoneyError =
    | MoneyOverflow
    | CurrencyMismatch
    | NoWeights
    | NegativeWeight
    | ZeroTotal
    | NegativeAmount
    | NegativeCap
    | DivisorNotPositive
    | DenominatorNotPositive

  // The private constructor: every Money, results included, passes through it.
  function Construct(amountMinor: int, currency: string): Result<Money, MoneyError> {
    var m := Money(amountMinor, currency);
    if m.Valid() then Ok(m) else Err(MoneyOverflow)
  }

  // ---------------------------------------------------------------- exact and rounded scaling

  function MulRatio(m: Money, num: int, den: int, mode: Mode): Result<Money, MoneyError> {
    match DivRoundMoney(m.amountMinor * num, den, Named(mode))
    case Ok(v) => Construct(v, m.currency)
    case Err(_) => Err(MoneyError.DenominatorNotPositive)
  }

  function Percentage(m: Money, bps: int, mode: Mode): Result<Money, MoneyError> {
    MulRatio(m, bps, 10000, mode)
  }

  // mulRatio gives the amount that rounds amount * num / den as the mode promises, and
  // fails only on a bad denominator or when that amount cannot be stored.
  lemma MulRatioMeans(m: Money, num: int, den: int, mode: Mode, v: int)
    ensures MulRatio(m, num, den, mode) == Ok(Money(v, m.currency)) <==>
            den > 0 && Rounds(m.amountMinor * num, den, mode, v) && MONEY_MIN_MINOR <= v <= MONEY_MAX_MINOR
    ensures MulRatio(m, num, den, mode) == Err(MoneyError.DenominatorNotPositive) <==> den <= 0
    ensures MulRatio(m, num, den, mode).Err? && den > 0 ==> MulRatio(m, num, den, mode) == Err(MoneyOverflow)
    ensures MulRatio(m, num, den, mode).Ok? ==> MulRatio(m, num, den, mode).value.currency == m.currency
  {
    DivRoundCorrect(m.amountMinor * num, den, mode, v);
    if den > 0 { DivRoundCorrect(m.amountMinor * num, den, mode, RoundQuotient(m.amountMinor * num, den, mode)); }
  }

  // A share of at most the whole is never more than the whole, whatever the mode.
  lemma PercentageWithin(m: Money, bps: int, mode: Mode)
    requires m.Valid() && 0 <= bps <= 10000
    ensures Percentage(m, bps, mode).Ok?
    ensures var p := Percentage(m, bps, mode).value.amountMinor;
            && (m.amountMinor >= 0 ==> 0 <= p <= m.amountMinor)
            && (m.amountMinor <= 0 ==> m.amountMinor <= p <= 0)
            && (bps == 10000 ==> p == m.amountMinor)
  {
    var a := m.amountMinor;
    Whole(a, mode);
    Whole(0, mode);
    if a > 0 { ScaleOrder(a, 0, bps); ScaleOrder(a, bps, 10000); }
    if a < 0 { ScaleOrder(-a, 0, bps); ScaleOrder(-a, bps, 10000); assert -a * bps == -(a * bps); }
    if a >= 0 {
      DivRoundMonotone(0, a * bps, 10000, mode);
      DivRoundMonotone(a * bps, a * 10000, 10000, mode);
    }
    if a <= 0 {
      DivRoundMonotone(a * bps, 0, 10000, mode);
      DivRoundMonotone(a * 10000, a * bps, 10000, mode);
    }
  }

  lemma Whole(a: int, mode: Mode)
    ensures RoundQuotient(a * 10000, 10000, mode) == a
  {
    QuotientRounds(a * 10000, 10000, mode);
    RoundsUnique(a * 10000, 10000, mode, a, RoundQuotient(a * 10000, 10000, mode));
  }

  function DivMod(m: Money, divisor: int): Result<(Money, Money), MoneyError> {
    if divisor <= 0 then Err(DivisorNotPositive)
    else
      match Construct(TruncDiv(m.amountMinor, divisor), m.currency)
      case Err(e) => Err(e)
      case Ok(q) =>
        match Construct(TruncRem(m.amountMinor, divisor), m.currency)
        case Err(e) => Err(e)
        case Ok(r) => Ok((q, r))
  }

  // Quotient and remainder always fit, rebuild the amount, and never point the other way.
  lemma DivModExact(m: Money, divisor: int)
    requires m.Valid() && divisor > 0
    ensures DivMod(m, divisor).Ok?
    ensures var (q, r) := DivMod(m, divisor).value;
            && q.currency == r.currency == m.currency
            && q.amountMinor * divisor + r.amountMinor == m.amountMinor
            && Abs(r.amountMinor) < divisor
            && (m.amountMinor >= 0 ==> r.amountMinor >= 0 && 0 <= q.amountMinor <= m.amountMinor)
            && (m.amountMinor <= 0 ==> r.amountMinor <= 0 && m.amountMinor <= q.amountMinor <= 0)
  {
    var a, q := m.amountMinor, TruncDiv(m.amountMinor, divisor);
    TruncDivRem(a, divisor);
    Gap(q, 0, divisor);
    Gap(0, q, divisor);
    Multiply(q, divisor);
  }

  lemma Multiply(q: int, d: int)
    requires d > 0
    ensures q >= 0 ==> q <= q * d
    ensures q <= 0 ==> q * d <= q
  {
    if q > 0 { ScaleOrder(q, 1, d); }
    if q < 0 { ScaleOrder(-q, 1, d); }
  }

  // ---------------------------------------------------------------- largest-remainder allocation

  datatype Remainder = Remainder(i: nat, rem: int)

  // The comparator handed to sort: larger remainder first, ties by position.
  predicate Before(a: Remainder, b: Remainder) {
    a.rem > b.rem || (a.rem == b.rem && a.i < b.i)
  }

  // Truncated quotient, corrected to the floor where the remainder is negative.
  function FloorDiv(n: int, total: int): int
    requires total > 0
  {
    var q := TruncDiv(n, total);
    if TruncRem(n, total) < 0 then q - 1 else q
  }

  function Base(amount: int, weight: int, total: int): int
    requires total > 0
  {
    FloorDiv(amount * weight, total)
  }

  function Rem(amount: int, weight: int, total: int): int
    requires total > 0
  {
    amount * weight - Base(amount, weight, total) * total
  }

  lemma RemBounds(amount: int, weight: int, total: int)
    requires total > 0
    ensures 0 <= Rem(amount, weight, total) < total
  {
    var n := amount * weight;
    TruncDivRem(n, total);
    Gap(TruncDiv(n, total) - 1, 0, total);
  }

  function Bases(amount: int, weights: seq<int>, total: int): (b: seq<int>)
    requires total > 0
    ensures |b| == |weights|
  {
    seq(|weights|, i requires 0 <= i < |weights| => Base(amount, weights[i], total))
  }

  function Rems(amount: int, weights: seq<int>, total: int): (r: seq<int>)
    requires total > 0
    ensures |r| == |weights|
  {
    seq(|weights|, i requires 0 <= i < |weights| => Rem(amount, weights[i], total))
  }

  function Tagged(rems: seq<int>): (t: seq<Remainder>)
    ensures |t| == |rems|
  {
    seq(|rems|, i requires 0 <= i < |rems| => Remainder(i, rems[i]))
  }

  function Insert(x: Remainder, s: seq<Remainder>): seq<Remainder> {
    if s == [] || Before(x, s[0]) then [x] + s else [s[0]] + Insert(x, s[1..])
  }

  function Sort(s: seq<Remainder>): seq<Remainder> {
    if s == [] then [] else Insert(s[0], Sort(s[1..]))
  }

  ghost predicate Sorted(s: seq<Remainder>) {
    forall a, b :: 0 <= a < b < |s| ==> Before(s[a], s[b])
  }

  ghost predicate Distinct(s: seq<Remainder>) {
    forall a, b :: 0 <= a < b < |s| ==> s[a].i != s[b].i
  }

  function RemSum(s: seq<Remainder>): int {
    if s == [] then 0 else s[0].rem + RemSum(s[1..])
  }

  lemma {:induction false} InsertContents(x: Remainder, s: seq<Remainder>)
    ensures multiset(Insert(x, s)) == multiset(s) + multiset{x}
    ensures RemSum(Insert(x, s)) == RemSum(s) + x.rem
  {
    if s == [] || Before(x, s[0]) {
      assert ([x] + s)[1..] == s;
    } else {
      InsertContents(x, s[1..]);
      assert s == [s[0]] + s[1..];
      assert ([s[0]] + Insert(x, s[1..]))[1..] == Insert(x, s[1..]);
    }
  }

  lemma {:induction false} InsertSorted(x: Remainder, s: seq<Remainder>)
    requires Sorted(s)
    requires forall y :: y in s ==> y.i != x.i
    ensures Sorted(Insert(x, s))
  {
    if s != [] && !Before(x, s[0]) {
      InsertSorted(x, s[1..]);
      InsertContents(x, s[1..]);
      var t := Insert(x, s[1..]);
      forall y | y in t ensures Before(s[0], y) {
        assert y in multiset(t);
        assert y == x || y in s[1..];
      }
    }
  }

  lemma {:induction false} SortContents(s: seq<Remainder>)
    ensures multiset(Sort(s)) == multiset(s) && RemSum(Sort(s)) == RemSum(s)
  {
    if s != [] {
      assert s == [s[0]] + s[1..];
      SortContents(s[1..]);
      InsertContents(s[0], Sort(s[1..]));
    }
  }

  lemma {:induction false} SortSorted(s: seq<Remainder>)
    requires Distinct(s)
    ensures Sorted(Sort(s)) && |Sort(s)| == |s|
    ensures multiset(Sort(s)) == multiset(s)
    ensures RemSum(Sort(s)) == RemSum(s)
  {
    SortContents(s);
    assert |multiset(Sort(s))| == |multiset(s)|;
    if s != [] {
      SortSorted(s[1..]);
      forall y | y in Sort(s[1..]) ensures y.i != s[0].i {
        assert y in multiset(s[1..]);
      }
      InsertSorted(s[0], Sort(s[1..]));
    }
  }

  lemma {:induction false} RemSumTagged(rems: seq<int>, t: seq<Remainder>)
    requires |t| == |rems|
    requires forall i :: 0 <= i < |t| ==> t[i].rem == rems[i]
    ensures RemSum(t) == Sum(rems)
  {
    if t != [] { RemSumTagged(rems[1..], t[1..]); }
  }

  lemma {:induction false} SharesSum(amount: int, weights: seq<int>, total: int)
    requires total > 0
    ensures amount * Sum(weights) == Sum(Bases(amount, weights, total)) * total + Sum(Rems(amount, weights, total))
  {
    if weights != [] {
      SharesSum(amount, weights[1..], total);
      var b, r := Bases(amount, weights, total), Rems(amount, weights, total);
      assert b[1..] == Bases(amount, weights[1..], total);
      assert r[1..] == Rems(amount, weights[1..], total);
      Distribute4(amount, weights[0], Sum(weights[1..]), b[0], Sum(b[1..]), total);
    }
  }

  lemma Distribute4(a: int, x: int, y: int, p: int, q: int, t: int)
    ensures a * (x + y) == a * x + a * y
    ensures (p + q) * t == p * t + q * t
  {
  }

  // A sum of remainders below total each: R * total of them needs more than R non-zero ones.
  lemma {:induction false} EnoughRemainders(s: seq<Remainder>, total: int, count: nat)
    requires total > 0 && Sorted(s)
    requires forall y :: y in s ==> 0 <= y.rem < total
    requires RemSum(s) == count * total
    ensures count <= |s|
    ensures forall k :: 0 <= k < count ==> s[k].rem > 0
  {
    var k := 0;
    while k < |s| && s[k].rem > 0
      invariant 0 <= k <= |s|
      invariant forall j :: 0 <= j < k ==> s[j].rem > 0
      invariant k == 0 ==> RemSum(s) == RemSum(s[k..])
      invariant RemSum(s) <= RemSum(s[k..]) + k * total
    {
      Gap(k, 0, total);
      assert s[k..][1..] == s[k + 1..];
      assert s[k] in s;
      k := k + 1;
    }
    ZeroTail(s[k..]);
    Gap(k, count, total);
  }

  lemma {:induction false} ZeroTail(s: seq<Remainder>)
    requires Sorted(s)
    requires s != [] ==> s[0].rem <= 0
    requires forall y :: y in s ==> 0 <= y.rem
    ensures RemSum(s) == 0
  {
    if s != [] {
      assert s[0] in s;
      if |s| > 1 { assert Before(s[0], s[1]); }
      ZeroTail(s[1..]);
    }
  }

  lemma ResidualTimesTotal(amount: int, bases: int, rems: int, total: int)
    requires total > 0 && rems >= 0
    requires amount * total == bases * total + rems
    ensures rems == (amount - bases) * total
    ensures amount - bases >= 0
  {
    Gap(amount - bases, 0, total);
    assert (amount - bases) * total == amount * total - bases * total;
  }

  ghost predicate NonNegative(s: seq<int>) {
    forall i :: 0 <= i < |s| ==> s[i] >= 0
  }

  lemma {:induction false} SumNonNegative(s: seq<int>)
    requires NonNegative(s)
    ensures Sum(s) >= 0
    ensures forall i :: 0 <= i < |s| ==> s[i] <= Sum(s)
  {
    if s != [] { SumNonNegative(s[1..]); }
  }

  // What allocate promises, without its loop: parts sum to the amount, each is its
  // floored share or one more, and the extra units sit on the largest remainders.
  ghost predicate LargestRemainder(amount: int, weights: seq<int>, parts: seq<int>)
    requires Sum(weights) > 0
  {
    var total := Sum(weights);
    && |parts| == |weights|
    && Sum(parts) == amount
    && (forall i :: 0 <= i < |parts| ==>
          Base(amount, weights[i], total) <= parts[i] <= Base(amount, weights[i], total) + 1)
    && (forall i :: 0 <= i < |parts| && Bumped(amount, weights, parts, i) ==> Rem(amount, weights[i], total) > 0)
    && (forall i, j | 0 <= i < |parts| && 0 <= j < |parts|
          && Bumped(amount, weights, parts, i) && !Bumped(amount, weights, parts, j) ::
          var a, b := Rem(amount, weights[i], total), Rem(amount, weights[j], total);
          a > b || (a == b && i < j))
  }

  ghost predicate Bumped(amount: int, weights: seq<int>, parts: seq<int>, i: nat)
    requires Sum(weights) > 0 && i < |parts| == |weights|
  {
    parts[i] == Base(amount, weights[i], Sum(weights)) + 1
  }

  // At most one list of parts meets the promise.
  lemma LargestRemainderUnique(amount: int, weights: seq<int>, p: seq<int>, q: seq<int>)
    requires Sum(weights) > 0
    requires LargestRemainder(amount, weights, p) && LargestRemainder(amount, weights, q)
    ensures p == q
  {
    if i :| 0 <= i < |p| && p[i] > q[i] {
      forall j | 0 <= j < |p| ensures q[j] <= p[j] {
        OnlyOneAhead(amount, weights, p, q, i, j);
      }
      SumMonotone(q, p);
    } else {
      SumMonotone(p, q);
    }
  }

  // Of two splits, only one can be ahead of the other anywhere.
  lemma OnlyOneAhead(amount: int, weights: seq<int>, p: seq<int>, q: seq<int>, i: nat, j: nat)
    requires Sum(weights) > 0
    requires LargestRemainder(amount, weights, p) && LargestRemainder(amount, weights, q)
    requires i < |p| && j < |p| && p[i] > q[i]
    ensures q[j] <= p[j]
  {
    if q[j] > p[j] {
      BumpedFirst(amount, weights, p, i, j);
      BumpedFirst(amount, weights, q, j, i);
    }
  }

  lemma BumpedFirst(amount: int, weights: seq<int>, p: seq<int>, i: nat, j: nat)
    requires Sum(weights) > 0 && LargestRemainder(amount, weights, p)
    requires i < |p| && j < |p| && Bumped(amount, weights, p, i) && !Bumped(amount, weights, p, j)
    ensures Before(Remainder(i, Rem(amount, weights[i], Sum(weights))),
                   Remainder(j, Rem(amount, weights[j], Sum(weights))))
  {
  }

  // The sorted remainders are the tagged ones, each once.
  lemma OrderComplete(amount: int, weights: seq<int>, total: int, order: seq<Remainder>)
    requires total > 0
    requires order == Sort(Tagged(Rems(amount, weights, total)))
    ensures |order| == |weights| && Sorted(order)
    ensures RemSum(order) == Sum(Rems(amount, weights, total))
    ensures forall y :: y in order ==> y.i < |weights| && y.rem == Rem(amount, weights[y.i], total)
    ensures forall i :: 0 <= i < |weights| ==> Remainder(i, Rem(amount, weights[i], total)) in order
  {
    var rems := Rems(amount, weights, total);
    var tagged := Tagged(rems);
    SortSorted(tagged);
    RemSumTagged(rems, tagged);
    forall y | y in order ensures y.i < |weights| && y.rem == Rem(amount, weights[y.i], total) {
      assert y in multiset(order);
      assert y in tagged;
    }
    forall i | 0 <= i < |weights| ensures Remainder(i, Rem(amount, weights[i], total)) in order {
      assert tagged[i] in multiset(tagged);
      assert tagged[i] in multiset(order);
    }
  }

  lemma SortedDistinct(order: seq<Remainder>, rem: nat -> int)
    requires Sorted(order)
    requires forall y :: y in order ==> y.rem == rem(y.i)
    ensures Distinct(order)
  {
    forall a, b | 0 <= a < b < |order| ensures order[a].i != order[b].i {
      assert order[a] in order && order[b] in order && Before(order[a], order[b]);
    }
  }

  // The residual is a count of units, fewer than the non-zero remainders.
  lemma ResidualFits(amount: int, weights: seq<int>, total: int, order: seq<Remainder>, residual: int)
    requires total == Sum(weights) > 0
    requires order == Sort(Tagged(Rems(amount, weights, total)))
    requires residual == amount - Sum(Bases(amount, weights, total))
    ensures 0 <= residual <= |order|
    ensures forall k :: 0 <= k < residual ==> order[k].rem > 0
  {
    var rems := Rems(amount, weights, total);
    OrderComplete(amount, weights, total, order);
    forall i | 0 <= i < |weights| ensures 0 <= rems[i] < total {
      RemBounds(amount, weights[i], total);
    }
    SharesSum(amount, weights, total);
    SumNonNegative(rems);
    ResidualTimesTotal(amount, Sum(Bases(amount, weights, total)), Sum(rems), total);
    forall y | y in order ensures 0 <= y.rem < total {
      assert y.rem == rems[y.i];
    }
    EnoughRemainders(order, total, residual);
  }

  ghost predicate Ordered(amount: int, weights: seq<int>, order: seq<Remainder>)
    requires Sum(weights) > 0
  {
    && |order| == |weights| && Sorted(order) && Distinct(order)
    && (forall k :: 0 <= k < |order| ==>
          order[k].i < |weights| && order[k].rem == Rem(amount, weights[order[k].i], Sum(weights)))
    && (forall i :: 0 <= i < |weights| ==> Remainder(i, Rem(amount, weights[i], Sum(weights))) in order)
  }

  // Everything the hand-out loop needs to know about the sorted remainders.
  lemma HandOutOrder(amount: int, weights: seq<int>, order: seq<Remainder>, residual: int)
    requires Sum(weights) > 0
    requires order == Sort(Tagged(Rems(amount, weights, Sum(weights))))
    requires residual == amount - Sum(Bases(amount, weights, Sum(weights)))
    ensures Ordered(amount, weights, order) && 0 <= residual <= |order|
    ensures forall k :: 0 <= k < residual ==> order[k].rem > 0
  {
    var total := Sum(weights);
    OrderComplete(amount, weights, total, order);
    ResidualFits(amount, weights, total, order, residual);
    SortedDistinct(order, (i: nat) => if i < |weights| then Rem(amount, weights[i], total) else 0);
    forall k | 0 <= k < |order|
      ensures order[k].i < |weights| && order[k].rem == Rem(amount, weights[order[k].i], total)
    {
      assert order[k] in order;
    }
  }

  // The indices already given their extra unit after k rounds.
  ghost predicate Given(order: seq<Remainder>, k: nat, i: nat) {
    exists j :: 0 <= j < k && j < |order| && order[j].i == i
  }

  lemma HandedOut(amount: int, weights: seq<int>, order: seq<Remainder>, residual: nat, parts: seq<int>)
    requires Sum(weights) > 0 && Ordered(amount, weights, order)
    requires residual <= |order| && residual == amount - Sum(Bases(amount, weights, Sum(weights)))
    requires forall k :: 0 <= k < residual ==> order[k].rem > 0
    requires HandedSoFar(Bases(amount, weights, Sum(weights)), order, residual, parts)
    ensures LargestRemainder(amount, weights, parts)
  {
    var total := Sum(weights);
    forall i, j | 0 <= i < |parts| && 0 <= j < |parts|
      && Bumped(amount, weights, parts, i) && !Bumped(amount, weights, parts, j)
      ensures Before(Remainder(i, Rem(amount, weights[i], total)), Remainder(j, Rem(amount, weights[j], total)))
    {
      var a :| 0 <= a < residual && order[a].i == i;
      var b :| 0 <= b < |order| && order[b] == Remainder(j, Rem(amount, weights[j], total));
      assert b >= residual;
      assert Before(order[a], order[b]);
    }
  }

  // The parts after the first k units are handed out.
  ghost predicate HandedSoFar(base: seq<int>, order: seq<Remainder>, k: nat, parts: seq<int>) {
    && |parts| == |base|
    && Sum(parts) == Sum(base) + k
    && forall i :: 0 <= i < |base| ==> parts[i] == base[i] + (if Given(order, k, i) then 1 else 0)
  }

  lemma HandOne(base: seq<int>, order: seq<Remainder>, k: nat, parts: seq<int>)
    requires k < |order| && Distinct(order) && order[k].i < |base|
    requires HandedSoFar(base, order, k, parts)
    ensures HandedSoFar(base, order, k + 1, parts[order[k].i := parts[order[k].i] + 1])
  {
    var target := order[k].i;
    SumUpdate(parts, target, parts[target] + 1);
    GivenNext(order, k);
  }

  lemma SmallMod(k: nat, n: nat)
    requires k < n
    ensures k % n == k
  {
  }

  // The residual loop: one unit each to the first `units` indices of the order. The
  // order never runs out, so the index never wraps.
  method HandOut(base: seq<int>, order: seq<Remainder>, units: nat) returns (parts: seq<int>)
    requires units <= |order| == |base| && Distinct(order)
    requires forall k :: 0 <= k < |order| ==> order[k].i < |base|
    ensures HandedSoFar(base, order, units, parts)
  {
    var result := new int[|base|](i requires 0 <= i < |base| => base[i]);
    assert result[..] == base;
    var residual: int := units;
    var k: nat := 0;
    while residual > 0
      invariant k + residual == units && residual >= 0
      invariant HandedSoFar(base, order, k, result[..])
    {
      SmallMod(k, |order|);
      var target := order[k % |order|].i;
      HandOne(base, order, k, result[..]);
      ghost var before := result[..];
      result[target] := result[target] + 1;
      assert result[..] == before[target := before[target] + 1];
      residual := residual - 1;
      k := k + 1;
    }
    parts := result[..];
  }

  lemma GivenNext(order: seq<Remainder>, k: nat)
    requires k < |order| && Distinct(order)
    ensures !Given(order, k, order[k].i)
    ensures forall i: nat :: Given(order, k + 1, i) <==> Given(order, k, i) || i == order[k].i
  {
    forall i: nat ensures Given(order, k + 1, i) <==> Given(order, k, i) || i == order[k].i {
      if i == order[k].i { assert Given(order, k + 1, i); }
      if Given(order, k, i) {
        var j :| 0 <= j < k && order[j].i == i;
        assert j < k + 1;
      }
    }
  }

  // Money.allocate. A weight list the source refuses is refused with its error; on
  // any other the parts are the largest-remainder split, and every part is storable.
  method Allocate(m: Money, weights: seq<int>) returns (r: Result<seq<Money>, MoneyError>)
    requires m.Valid()
    ensures r == Err(NoWeights) <==> weights == []
    ensures r == Err(NegativeWeight) <==> !NonNegative(weights)
    ensures r == Err(ZeroTotal) <==> weights != [] && NonNegative(weights) && Sum(weights) == 0
    ensures r.Ok? <==> NonNegative(weights) && Sum(weights) > 0
    ensures r.Ok? ==> LargestRemainder(m.amountMinor, weights, Minors(r.value))
    ensures r.Ok? ==> forall p :: p in r.value ==> p.Valid() && p.currency == m.currency
  {
    if weights == [] { return Err(NoWeights); }
    if exists i :: 0 <= i < |weights| && weights[i] < 0 { return Err(NegativeWeight); }
    SumNonNegative(weights);
    var total := Sum(weights);
    if total == 0 { return Err(ZeroTotal); }

    var amount := m.amountMinor;
    var base := Bases(amount, weights, total);
    var remainders := Sort(Tagged(Rems(amount, weights, total)));
    var residual := amount - Sum(base);
    HandOutOrder(amount, weights, remainders, residual);
    var parts := HandOut(base, remainders, residual);
    HandedOut(amount, weights, remainders, residual, parts);
    PartsStorable(amount, weights, parts);
    var monies := seq(|parts|, i requires 0 <= i < |parts| => Money(parts[i], m.currency));
    assert Minors(monies) == parts;
    return Ok(monies);
  }

  function Minors(ms: seq<Money>): (s: seq<int>)
    ensures |s| == |ms|
  {
    seq(|ms|, i requires 0 <= i < |ms| => ms[i].amountMinor)
  }

  // Consequences of the promise, for either sign of the amount.

  lemma ShareBounds(amount: int, weight: int, total: int)
    requires total > 0 && 0 <= weight <= total
    ensures amount >= 0 ==> 0 <= Base(amount, weight, total) <= amount
    ensures amount >= 0 && Rem(amount, weight, total) > 0 ==> Base(amount, weight, total) < amount
    ensures amount <= 0 ==> amount <= Base(amount, weight, total) <= 0
    ensures amount <= 0 && Rem(amount, weight, total) > 0 ==> Base(amount, weight, total) < 0
    ensures weight == 0 ==> Base(amount, weight, total) == 0 && Rem(amount, weight, total) == 0
  {
    var b, r := Base(amount, weight, total), Rem(amount, weight, total);
    RemBounds(amount, weight, total);
    assert amount * weight == b * total + r;
    if weight == 0 { assert amount * weight == 0; }
    if amount > 0 { ScaleOrder(amount, weight, total); ScaleOrder(amount, 0, weight); ScaleOrder(amount, weight, 0); }
    if amount < 0 {
      ScaleOrder(-amount, weight, total);
      ScaleOrder(-amount, 0, weight);
      ScaleOrder(-amount, weight, 0);
    }
    Gap(b, 0, total);
    Gap(0, b, total);
    Gap(b, amount, total);
    Gap(amount, b, total);
    assert -amount * weight == -(amount * weight) && -amount * total == -(amount * total);
  }

  // No part has the other sign or a larger magnitude than the amount, and a zero
  // weight gets nothing: constructing a part never overflows.
  lemma PartsStorable(amount: int, weights: seq<int>, parts: seq<int>)
    requires Sum(weights) > 0
    requires NonNegative(weights)
    requires LargestRemainder(amount, weights, parts)
    ensures forall i :: 0 <= i < |parts| ==>
              if amount >= 0 then 0 <= parts[i] <= amount else amount <= parts[i] <= 0
    ensures forall i :: 0 <= i < |parts| && weights[i] == 0 ==> parts[i] == 0
  {
    SumNonNegative(weights);
    forall i | 0 <= i < |parts|
      ensures if amount >= 0 then 0 <= parts[i] <= amount else amount <= parts[i] <= 0
      ensures weights[i] == 0 ==> parts[i] == 0
    {
      ShareBounds(amount, weights[i], Sum(weights));
      assert parts[i] != Base(amount, weights[i], Sum(weights)) ==> Bumped(amount, weights, parts, i);
    }
  }

  // A larger weight never gets a smaller share of a positive amount, nor a smaller
  // debt of a negative one.
  lemma PartsFollowWeights(amount: int, weights: seq<int>, parts: seq<int>, i: nat, j: nat)
    requires Sum(weights) > 0
    requires LargestRemainder(amount, weights, parts)
    requires i < |parts| && j < |parts| && weights[i] > weights[j]
    ensures amount >= 0 ==> parts[i] >= parts[j]
    ensures amount <= 0 ==> parts[i] <= parts[j]
  {
    if amount >= 0 {
      if amount > 0 { ScaleOrder(amount, weights[j], weights[i]); }
      LargerShare(amount, weights, parts, i, j);
    }
    if amount <= 0 {
      if amount < 0 { ScaleOrder(-amount, weights[j], weights[i]); }
      assert -amount * weights[j] == -(amount * weights[j]) && -amount * weights[i] == -(amount * weights[i]);
      LargerShare(amount, weights, parts, j, i);
    }
    if amount == 0 { assert amount * weights[i] == amount * weights[j] == 0; }
  }

  lemma LargerShare(amount: int, weights: seq<int>, parts: seq<int>, i: nat, j: nat)
    requires Sum(weights) > 0
    requires LargestRemainder(amount, weights, parts)
    requires i < |parts| && j < |parts| && amount * weights[i] >= amount * weights[j]
    requires amount * weights[i] == amount * weights[j] ==> amount == 0
    ensures parts[i] >= parts[j]
  {
    var total := Sum(weights);
    var bi, bj := Base(amount, weights[i], total), Base(amount, weights[j], total);
    RemBounds(amount, weights[i], total);
    RemBounds(amount, weights[j], total);
    Gap(bi, bj, total);
    if amount == 0 {
      ZeroShare(weights[i], total);
      ZeroShare(weights[j], total);
    } else if bi == bj && Bumped(amount, weights, parts, j) {
      assert Bumped(amount, weights, parts, i);
    }
  }

  lemma ZeroShare(weight: int, total: int)
    requires total > 0
    ensures Base(0, weight, total) == 0 && Rem(0, weight, total) == 0
  {
    assert 0 * weight == 0;
    RemBounds(0, weight, total);
    Gap(Base(0, weight, total), 0, total);
    Gap(0, Base(0, weight, total), total);
  }

  // ---------------------------------------------------------------- FIFO cap allocation

  // What the loop knows after the first i caps.
  ghost predicate CapProgress(m: Money, caps: seq<Money>, i: nat, remaining: int, taken: seq<int>) {
    && i <= |caps|
    && 0 <= remaining <= m.amountMinor
    && FirstCapError(m, caps) == FirstCapError(m, caps[i..])
    && taken + Filled(remaining, Minors(caps[i..])) == Filled(m.amountMinor, Minors(caps))
    && Leftover(remaining, Minors(caps[i..])) == Leftover(m.amountMinor, Minors(caps))
  }

  lemma CapStep(m: Money, caps: seq<Money>, i: nat, remaining: int, taken: seq<int>)
    requires CapProgress(m, caps, i, remaining, taken)
    requires i < |caps| && caps[i].amountMinor >= 0 && caps[i].currency == m.currency
    ensures var take := Min(remaining, caps[i].amountMinor);
            CapProgress(m, caps, i + 1, remaining - take, taken + [take])
  {
    var take := Min(remaining, caps[i].amountMinor);
    assert caps[i..][1..] == caps[i + 1..];
    assert Minors(caps[i..])[1..] == Minors(caps[i + 1..]);
    var rest := Filled(remaining - take, Minors(caps[i + 1..]));
    assert Filled(remaining, Minors(caps[i..])) == [take] + rest;
    assert taken + ([take] + rest) == taken + [take] + rest;
  }

  ghost predicate AllOf(currency: string, parts: seq<Money>) {
    forall a :: a in parts ==> a.Valid() && a.currency == currency
  }

  lemma CapsBegin(m: Money, caps: seq<Money>)
    requires m.amountMinor >= 0
    ensures CapProgress(m, caps, 0, m.amountMinor, Minors([]))
  {
    assert caps[0..] == caps;
    assert [] + Filled(m.amountMinor, Minors(caps)) == Filled(m.amountMinor, Minors(caps));
  }

  lemma CapRefused(m: Money, caps: seq<Money>, i: nat, remaining: int, taken: seq<int>)
    requires CapProgress(m, caps, i, remaining, taken) && i < |caps|
    ensures caps[i].currency != m.currency ==> FirstCapError(m, caps) == Some(CurrencyMismatch)
    ensures caps[i].currency == m.currency && caps[i].amountMinor < 0 ==> FirstCapError(m, caps) == Some(NegativeCap)
  {
  }

  // The next cap's part joins the ones before it.
  lemma CapTaken(m: Money, caps: seq<Money>, i: nat, remaining: int, parts: seq<Money>, take: int)
    requires CapProgress(m, caps, i, remaining, Minors(parts)) && AllOf(m.currency, parts) && m.Valid()
    requires i < |caps| && caps[i].amountMinor >= 0 && caps[i].currency == m.currency
    requires take == Min(remaining, caps[i].amountMinor)
    ensures CapProgress(m, caps, i + 1, remaining - take, Minors(parts + [Money(take, m.currency)]))
    ensures AllOf(m.currency, parts + [Money(take, m.currency)])
  {
    CapStep(m, caps, i, remaining, Minors(parts));
    assert Minors(parts + [Money(take, m.currency)]) == Minors(parts) + [take];
  }

  lemma CapsDone(m: Money, caps: seq<Money>, remaining: int, taken: seq<int>)
    requires CapProgress(m, caps, |caps|, remaining, taken)
    ensures FirstCapError(m, caps).None?
    ensures taken == Filled(m.amountMinor, Minors(caps)) && remaining == Leftover(m.amountMinor, Minors(caps))
  {
    assert taken + [] == taken;
  }

  // Money.capAllocate: refused on the first offending cap, in order.
  method CapAllocate(m: Money, caps: seq<Money>) returns (r: Result<(seq<Money>, Money), MoneyError>)
    requires m.Valid() && forall c :: c in caps ==> c.Valid()
    ensures r == Err(NegativeAmount) <==> m.amountMinor < 0
    ensures m.amountMinor >= 0 ==> (r.Ok? <==> FirstCapError(m, caps).None?)
    ensures m.amountMinor >= 0 && r.Err? ==> FirstCapError(m, caps) == Some(r.error)
    ensures r.Ok? ==> Minors(r.value.0) == Filled(m.amountMinor, Minors(caps))
    ensures r.Ok? ==> r.value.1.amountMinor == Leftover(m.amountMinor, Minors(caps))
    ensures r.Ok? ==> r.value.1.Valid() && r.value.1.currency == m.currency
    ensures r.Ok? ==> AllOf(m.currency, r.value.0)
  {
    if m.amountMinor < 0 { return Err(NegativeAmount); }
    var refusal, allocations, remaining := TakeInOrder(m, caps);
    if refusal.Some? { return Err(refusal.value); }
    CapsDone(m, caps, remaining, Minors(allocations));
    return Ok((allocations, Money(remaining, m.currency)));
  }

  // Its pass over the caps, which stops at the first offending one.
  method TakeInOrder(m: Money, caps: seq<Money>)
    returns (refusal: Option<MoneyError>, allocations: seq<Money>, remaining: int)
    requires m.Valid() && m.amountMinor >= 0
    ensures refusal.Some? ==> FirstCapError(m, caps) == refusal
    ensures refusal.None? ==>
              CapProgress(m, caps, |caps|, remaining, Minors(allocations)) && AllOf(m.currency, allocations)
  {
    refusal, allocations, remaining := None, [], m.amountMinor;
    CapsBegin(m, caps);
    for i := 0 to |caps|
      invariant refusal.None? && CapProgress(m, caps, i, remaining, Minors(allocations))
                && AllOf(m.currency, allocations)
    {
      var cap := caps[i];
      if cap.currency != m.currency || cap.amountMinor < 0 {
        CapRefused(m, caps, i, remaining, Minors(allocations));
        refusal := Some(if cap.currency != m.currency then CurrencyMismatch else NegativeCap);
        return;
      }
      var take := if remaining < cap.amountMinor then remaining else cap.amountMinor;
      CapTaken(m, caps, i, remaining, allocations, take);
      remaining, allocations := remaining - take, allocations + [Money(take, m.currency)];
    }
  }

  function FirstCapError(m: Money, caps: seq<Money>): (e: Option<MoneyError>)
    ensures e != Some(NegativeAmount)
  {
    if caps == [] then None
    else if caps[0].currency != m.currency then Some(CurrencyMismatch)
    else if caps[0].amountMinor < 0 then Some(NegativeCap)
    else FirstCapError(m, caps[1..])
  }

  // Cap i is the first of another currency or negative.
  ghost predicate FirstBadCap(m: Money, caps: seq<Money>, i: nat) {
    && i < |caps| && !(caps[i].currency == m.currency && caps[i].amountMinor >= 0)
    && forall k :: 0 <= k < i ==> caps[k].currency == m.currency && caps[k].amountMinor >= 0
  }

  // The first bad cap decides, and of what is wrong with it the currency comes first.
  lemma {:induction false} CapErrorExactly(m: Money, caps: seq<Money>, i: nat)
    ensures FirstBadCap(m, caps, i) ==>
              FirstCapError(m, caps) ==
              Some(if caps[i].currency != m.currency then CurrencyMismatch else NegativeCap)
    ensures (forall c :: c in caps ==> c.currency == m.currency && c.amountMinor >= 0) ==> FirstCapError(m, caps).None?
  {
    if caps != [] {
      CapErrorExactly(m, caps[1..], if i > 0 then i - 1 else 0);
      if FirstBadCap(m, caps, i) && i > 0 {
        assert caps[0].currency == m.currency && caps[0].amountMinor >= 0;
        assert FirstBadCap(m, caps[1..], i - 1);
      }
    }
  }

  function Filled(amount: int, caps: seq<int>): (f: seq<int>)
    ensures |f| == |caps|
    decreases |caps|
  {
    if caps == [] then []
    else
      var take := Min(amount, caps[0]);
      [take] + Filled(amount - take, caps[1..])
  }

  function Leftover(amount: int, caps: seq<int>): int
    decreases |caps|
  {
    if caps == [] then amount else Leftover(amount - Min(amount, caps[0]), caps[1..])
  }

  // Each cap gets what the earlier caps leave of the amount, held between 0 and the
  // cap; what no cap takes is left over.
  lemma {:induction false} FilledClosedForm(amount: nat, caps: seq<int>)
    requires NonNegative(caps)
    ensures forall i :: 0 <= i < |caps| ==>
              Filled(amount, caps)[i] == Max(0, Min(caps[i], amount - Sum(caps[..i])))
    ensures Leftover(amount, caps) == Max(0, amount - Sum(caps))
    ensures Sum(Filled(amount, caps)) + Leftover(amount, caps) == amount
  {
    forall i | 0 <= i < |caps|
      ensures Filled(amount, caps)[i] == Max(0, Min(caps[i], amount - Sum(caps[..i])))
    {
      FilledAt(amount, caps, i);
    }
    LeftoverClosedForm(amount, caps);
  }

  lemma {:induction false} FilledAt(amount: nat, caps: seq<int>, i: nat)
    requires NonNegative(caps) && i < |caps|
    ensures Filled(amount, caps)[i] == Max(0, Min(caps[i], amount - Sum(caps[..i])))
  {
    if i > 0 {
      var take := Min(amount, caps[0]);
      FilledAt(amount - take, caps[1..], i - 1);
      assert caps[..i][1..] == caps[1..][..i - 1];
      SumNonNegative(caps[1..][..i - 1]);
    }
  }

  lemma {:induction false} LeftoverClosedForm(amount: nat, caps: seq<int>)
    requires NonNegative(caps)
    ensures Leftover(amount, caps) == Max(0, amount - Sum(caps))
    ensures Sum(Filled(amount, caps)) + Leftover(amount, caps) == amount
  {
    if caps != [] {
      var take := Min(amount, caps[0]);
      LeftoverClosedForm(amount - take, caps[1..]);
      SumNonNegative(caps[1..]);
      assert Filled(amount, caps)[1..] == Filled(amount - take, caps[1..]);
    }
  }

  // Nothing is lost, no cap is exceeded, and a later cap is touched only once every
  // earlier one is full; anything left over means they are all full.
  lemma FilledInOrder(amount: nat, caps: seq<int>)
    requires NonNegative(caps)
    ensures var f := Filled(amount, caps);
            && Sum(f) + Leftover(amount, caps) == amount && Leftover(amount, caps) >= 0
            && (forall i :: 0 <= i < |caps| ==> 0 <= f[i] <= caps[i])
            && (forall i, j :: 0 <= i < j < |caps| && f[j] > 0 ==> f[i] == caps[i])
            && (Leftover(amount, caps) > 0 ==> f == caps)
  {
    FilledClosedForm(amount, caps);
    var f := Filled(amount, caps);
    forall i, j | 0 <= i < j < |caps| && f[j] > 0 ensures f[i] == caps[i] {
      PrefixSums(caps, i, j);
    }
    if Leftover(amount, caps) > 0 {
      forall i | 0 <= i < |caps| ensures f[i] == caps[i] {
        PrefixSums(caps, i, |caps|);
        assert caps[..|caps|] == caps;
      }
    }
  }

  lemma PrefixSums(caps: seq<int>, i: nat, j: nat)
    requires i < j <= |caps| && NonNegative(caps)
    ensures Sum(caps[..i]) + caps[i] <= Sum(caps[..j])
  {
    assert caps[..j] == caps[..i] + ([caps[i]] + caps[i + 1..j]);
    SumAppend(caps[..i], [caps[i]] + caps[i + 1..j]);
    SumNonNegative(caps[i + 1..j]);
  }

  function Reduced(caps: seq<int>, taken: seq<int>): (r: seq<int>)
    requires |caps| == |taken|
    ensures |r| == |caps|
  {
    seq(|caps|, i requires 0 <= i < |caps| => caps[i] - taken[i])
  }

  // Two payments over the shrinking caps do exactly what one combined payment does.
  lemma FilledInTwoSteps(a: nat, b: nat, caps: seq<int>)
    requires NonNegative(caps)
    ensures forall i :: 0 <= i < |caps| ==>
              Filled(a, caps)[i] + Filled(b, Reduced(caps, Filled(a, caps)))[i] == Filled(a + b, caps)[i]
    ensures Leftover(a, caps) + Leftover(b, Reduced(caps, Filled(a, caps))) == Leftover(a + b, caps)
  {
    forall i | 0 <= i < |caps|
      ensures Filled(a, caps)[i] + Filled(b, Reduced(caps, Filled(a, caps)))[i] == Filled(a + b, caps)[i]
    {
      FilledTwiceAt(a, b, caps, i);
    }
    LeftoverTwice(a, b, caps);
  }

  // The caps after the first are reduced as if they stood alone.
  lemma ReducedTail(a: nat, caps: seq<int>)
    requires caps != []
    ensures var r := Reduced(caps, Filled(a, caps));
            r[0] == caps[0] - Min(a, caps[0]) && r[1..] == Reduced(caps[1..], Filled(a - Min(a, caps[0]), caps[1..]))
  {
    UnfoldFill(a, caps);
  }

  lemma {:induction false} FilledTwiceAt(a: nat, b: nat, caps: seq<int>, i: nat)
    requires NonNegative(caps) && i < |caps|
    ensures Filled(a, caps)[i] + Filled(b, Reduced(caps, Filled(a, caps)))[i] == Filled(a + b, caps)[i]
  {
    var reduced := Reduced(caps, Filled(a, caps));
    ReducedTail(a, caps);
    UnfoldFill(a, caps);
    UnfoldFill(b, reduced);
    UnfoldFill(a + b, caps);
    if i > 0 {
      FilledTwiceAt(a - Min(a, caps[0]), b - Min(b, reduced[0]), caps[1..], i - 1);
    }
  }

  lemma {:induction false} LeftoverTwice(a: nat, b: nat, caps: seq<int>)
    requires NonNegative(caps)
    ensures Leftover(a, caps) + Leftover(b, Reduced(caps, Filled(a, caps))) == Leftover(a + b, caps)
  {
    if caps != [] {
      var reduced := Reduced(caps, Filled(a, caps));
      ReducedTail(a, caps);
      UnfoldFill(a, caps);
      UnfoldFill(b, reduced);
      UnfoldFill(a + b, caps);
      LeftoverTwice(a - Min(a, caps[0]), b - Min(b, reduced[0]), caps[1..]);
    }
  }

  lemma UnfoldFill(amount: int, caps: seq<int>)
    requires caps != []
    ensures var take := Min(amount, caps[0]);
            && Filled(amount, caps)[0] == take
            && (forall i :: 0 < i < |caps| ==> Filled(amount, caps)[i] == Filled(amount - take, caps[1..])[i - 1])
            && Leftover(amount, caps) == Leftover(amount - take, caps[1..])
  {
  }
}
