/** Satoshi arithmetic of a hedge position, in Python and in SQL (anyhedge/models.py).
    Multiplication and division are exact; rounding and truncation are written out. */
module HedgeSats {
  import opened Prelude

  const SATS_PER_BCH: real := 100_000_000.0

  /** decimal.ROUND_HALF_UP: ties go away from zero. */
  function HalfUp(x: real): int {
    if x >= 0.0 then (x + 0.5).Floor else -(0.5 - x).Floor
  }

  /** custom_round at 0 digits: a bias of 0.01, then half up. */
  function CustomRound(value: real): int {
    HalfUp(value + 0.01)
  }

  /** ROUND of a double in SQL: ties go to the even neighbour. */
  function HalfEven(x: real): int {
    var below := x.Floor;
    var fraction := x - below as real;
    if fraction < 0.5 || (fraction == 0.5 && below % 2 == 0) then below else below + 1
  }

  /** Python's int(): towards zero. */
  function Truncate(x: real): int {
    if x >= 0.0 then x.Floor else -(-x).Floor
  }

  lemma CustomRoundIsMonotone(x: real, y: real)
    requires x <= y
    ensures CustomRound(x) <= CustomRound(y)
  {
    var x', y' := x + 0.01, y + 0.01;
    if x' < 0.0 <= y' {
      assert (0.5 - x').Floor >= 0;
    } else if x' >= 0.0 {
      assert (x' + 0.5).Floor <= (y' + 0.5).Floor;
    } else {
      assert (0.5 - y').Floor <= (0.5 - x').Floor;
    }
  }

  lemma CustomRoundFixesIntegers(n: int)
    ensures CustomRound(n as real) == n
  {
    if n >= 0 {
      assert (n as real + 0.01 + 0.5).Floor == n;
    } else {
      assert (0.5 - (n as real + 0.01)).Floor == -n;
    }
  }

  /** The bias widens the error bound from 0.5 to 0.51. */
  lemma CustomRoundError(x: real)
    ensures -0.51 <= CustomRound(x) as real - x <= 0.51
  {
  }

  datatype HedgePosition = HedgePosition(
    satoshis: int,
    startPrice: int,
    lowMultiplier: real,
    highMultiplier: real,
    isSimpleHedge: bool,
    fees: seq<int>)
  {
    /** The low liquidation price before rounding. */
    function LowTarget(): real {
      startPrice as real * lowMultiplier
    }

    function LowLiquidationPrice(): int {
      CustomRound(LowTarget())
    }

    function HighLiquidationPrice(): int {
      CustomRound(startPrice as real * highMultiplier)
    }

    function NominalUnits(): real {
      (satoshis * startPrice) as real / SATS_PER_BCH
    }

    function SatsAt(price: int): int
      requires price != 0
    {
      Truncate(NominalUnits() * SATS_PER_BCH / price as real)
    }

    /** Both prices divide; Python raises ZeroDivisionError otherwise. */
    predicate Priced() {
      LowLiquidationPrice() != 0 && (!isSimpleHedge ==> HighLiquidationPrice() != 0)
    }

    function SatsAtHighLiquidationPrice(): int
      requires Priced()
    {
      if isSimpleHedge then 0 else SatsAt(HighLiquidationPrice())
    }

    function TotalSats(): int
      requires Priced()
    {
      SatsAt(LowLiquidationPrice()) - SatsAtHighLiquidationPrice()
    }

    function ShortInputSats(): int
      requires Priced()
    {
      if isSimpleHedge then satoshis else satoshis - SatsAt(HighLiquidationPrice())
    }

    function LongInputSats(): int
      requires Priced()
    {
      TotalSats() - ShortInputSats()
    }

    /** Amounts and prices are not negative, the low multiplier is at most 1, the high one at
        least 1, and the low price does not round away. */
    predicate Sensible() {
      && 0 <= satoshis && 0 <= startPrice
      && lowMultiplier <= 1.0 <= highMultiplier
      && 0 < LowLiquidationPrice()
    }
  }

  function Sum(xs: seq<int>): int {
    if xs == [] then 0 else Sum(xs[..|xs| - 1]) + xs[|xs| - 1]
  }

  lemma {:induction false} SumOfParts(xs: seq<int>, ys: seq<int>)
    ensures Sum([]) == 0 && forall x :: Sum([x]) == x
    ensures Sum(xs + ys) == Sum(xs) + Sum(ys)
  {
    forall x
      ensures Sum([x]) == x
    {
      assert [x][..0] == [];
    }
    if ys == [] {
      assert xs + ys == xs;
    } else {
      SumOfParts(xs, ys[..|ys| - 1]);
      assert (xs + ys)[..|xs + ys| - 1] == xs + ys[..|ys| - 1];
    }
  }

  /** More fees add up, in whatever order they are read. */
  lemma FeesAddUp(fees: seq<int>, more: seq<int>)
    ensures Sum(fees + more) == Sum(fees) + Sum(more) == Sum(more + fees)
    ensures forall fee :: Sum(fees + [fee]) == Sum(fees) + fee
  {
    SumOfParts(fees, more);
    SumOfParts(more, fees);
    forall fee
      ensures Sum(fees + [fee]) == Sum(fees) + fee
    {
      SumOfParts(fees, [fee]);
    }
  }

  method TotalSatsWithFee(position: HedgePosition) returns (total: int)
    requires position.Priced()
    ensures total == position.TotalSats() + Sum(position.fees)
  {
    total := position.TotalSats();
    for i := 0 to |position.fees|
      invariant total == position.TotalSats() + Sum(position.fees[..i])
    {
      assert position.fees[..i + 1][..i] == position.fees[..i];
      total := total + position.fees[i];
    }
    assert position.fees[..|position.fees|] == position.fees;
  }

  lemma FloorOfQuotient(a: int, b: int)
    requires 0 < b
    ensures (a as real / b as real).Floor == a / b
  {
    var q, r := a / b, a % b;
    assert a == b * q + r;
    assert a as real == b as real * q as real + r as real;
    assert a as real / b as real == q as real + r as real / b as real;
    assert 0.0 <= r as real / b as real < 1.0;
  }

  lemma SatsAtIsIntegerDivision(position: HedgePosition, price: int)
    requires 0 <= position.satoshis && 0 <= position.startPrice && 0 < price
    ensures position.SatsAt(price) == position.satoshis * position.startPrice / price
  {
    var product := position.satoshis * position.startPrice;
    assert 0 <= product;
    assert product as real / SATS_PER_BCH * SATS_PER_BCH == product as real;
    assert product as real / price as real >= 0.0;
    FloorOfQuotient(product, price);
  }

  lemma CancelFactor(x: int, y: int, factor: int)
    requires 0 < factor && x * factor < y * factor
    ensures x < y
  {
  }

  lemma QuotientBounds(a: int, b: int)
    requires 0 < b
    ensures (a / b) * b <= a < (a / b + 1) * b
  {
  }

  lemma ScaleKeepsOrder(s: int, x: int, y: int)
    requires 0 <= s && x <= y
    ensures s * x <= s * y
    ensures 0 < s && x < y ==> s * x < s * y
  {
  }

  /** A quotient compared with a bound, through the product of the bound. */
  lemma QuotientAgainst(a: int, price: int, bound: int)
    requires 0 < price
    ensures bound * price <= a ==> bound <= a / price
    ensures a < bound * price ==> a / price < bound
  {
    var q := a / price;
    QuotientBounds(a, price);
    if bound * price <= a {
      CancelFactor(bound, q + 1, price);
    } else {
      CancelFactor(q, bound, price);
    }
  }

  lemma QuotientAtLeast(s: int, p: int, price: int)
    requires 0 <= s && 0 < price <= p
    ensures s <= s * p / price
  {
    ScaleKeepsOrder(s, price, p);
    QuotientAgainst(s * p, price, s);
  }

  lemma NextMultiple(s: int, price: int)
    ensures (s + 1) * price == s * price + price
  {
  }

  lemma QuotientAtMost(s: int, p: int, price: int)
    requires 0 <= s && p <= price && 0 < price
    ensures s * p / price <= s
    ensures 0 < s && p < price ==> s * p / price < s
  {
    ScaleKeepsOrder(s, p, price);
    NextMultiple(s, price);
    QuotientAgainst(s * p, price, s + 1);
    QuotientAgainst(s * p, price, s);
  }

  lemma ScaledDown(p: real, factor: real)
    requires 0.0 <= p && factor <= 1.0
    ensures p * factor <= p
  {
  }

  lemma ScaledUp(p: real, factor: real)
    requires 0.0 <= p && 1.0 <= factor
    ensures p <= p * factor
  {
  }

  /** The start price lies between the two liquidation prices. */
  lemma LiquidationPricesBracketStart(position: HedgePosition)
    requires position.Sensible()
    ensures 0 < position.LowLiquidationPrice() <= position.startPrice <= position.HighLiquidationPrice()
    ensures position.Priced()
  {
    var p := position.startPrice as real;
    ScaledDown(p, position.lowMultiplier);
    ScaledUp(p, position.highMultiplier);
    CustomRoundFixesIntegers(position.startPrice);
    CustomRoundIsMonotone(p * position.lowMultiplier, p);
    CustomRoundIsMonotone(p, p * position.highMultiplier);
  }

  /** The two inputs are non-negative and sum to the total, and the long input is
      floor(S * P / L) - S for simple and leveraged positions alike. */
  lemma InputsSplitTotal(position: HedgePosition)
    requires position.Sensible()
    ensures position.Priced()
    ensures 0 <= position.ShortInputSats() && 0 <= position.LongInputSats()
    ensures position.ShortInputSats() + position.LongInputSats() == position.TotalSats()
    ensures position.LongInputSats()
         == position.satoshis * position.startPrice / position.LowLiquidationPrice() - position.satoshis
  {
    LiquidationPricesBracketStart(position);
    var low, high := position.LowLiquidationPrice(), position.HighLiquidationPrice();
    SatsAtIsIntegerDivision(position, low);
    SatsAtIsIntegerDivision(position, high);
    QuotientAtLeast(position.satoshis, position.startPrice, low);
    QuotientAtMost(position.satoshis, position.startPrice, high);
  }

  /** Both liquidation prices are their targets to within the error of the rounding. */
  lemma LiquidationPricesNearTargets(position: HedgePosition)
    ensures -0.51 <= position.LowLiquidationPrice() as real - position.startPrice as real * position.lowMultiplier
                  <= 0.51
    ensures -0.51 <= position.HighLiquidationPrice() as real - position.startPrice as real * position.highMultiplier
                  <= 0.51
  {
    CustomRoundError(position.startPrice as real * position.lowMultiplier);
    CustomRoundError(position.startPrice as real * position.highMultiplier);
  }

  /** The short input is the whole amount for a simple hedge, and S - floor(S * P / H) for a leveraged
      one; the total is floor(S * P / L), less that same quotient when leveraged. */
  lemma ShortInputAmount(position: HedgePosition)
    requires position.Sensible()
    ensures position.Priced()
    ensures var s, p, low, high := position.satoshis, position.startPrice, position.LowLiquidationPrice(),
                                   position.HighLiquidationPrice();
            && 0 < high
            && position.ShortInputSats() == (if position.isSimpleHedge then s else s - s * p / high)
            && position.TotalSats() == s * p / low - (if position.isSimpleHedge then 0 else s * p / high)
  {
    LiquidationPricesBracketStart(position);
    SatsAtIsIntegerDivision(position, position.LowLiquidationPrice());
    SatsAtIsIntegerDivision(position, position.HighLiquidationPrice());
  }

  /** Without the bound on the multiplier: the long input is negative exactly when the low
      liquidation price rounds above the start price. */
  lemma LongInputNegativeExactlyWhenLowPriceAboveStart(position: HedgePosition)
    requires 0 < position.satoshis && 0 <= position.startPrice && 0 < position.LowLiquidationPrice()
    requires position.Priced()
    ensures position.LongInputSats() < 0 <==> position.startPrice < position.LowLiquidationPrice()
  {
    var low := position.LowLiquidationPrice();
    SatsAtIsIntegerDivision(position, low);
    if low <= position.startPrice {
      QuotientAtLeast(position.satoshis, position.startPrice, low);
    } else {
      QuotientAtMost(position.satoshis, position.startPrice, low);
    }
  }

  /** HedgePositionQuerySet.Annotations.low_liquidation_price */
  function LowLiquidationPriceSql(position: HedgePosition): int {
    HalfEven(position.LowTarget())
  }

  /** HedgePositionQuerySet.Annotations.long_sats over its columns: a division of doubles, read back
      by int(). A zero price makes the query fail. */
  function LongSatsColumn(product: int, low: int, satoshis: int): Option<int> {
    var nominalUnitSats := HalfEven(product as real);
    if low == 0 then None else Some(Truncate(nominalUnitSats as real / low as real - satoshis as real))
  }

  function LongSatsSql(position: HedgePosition): Option<int> {
    LongSatsColumn(position.startPrice * position.satoshis, LowLiquidationPriceSql(position), position.satoshis)
  }

  /** The window in which the two roundings part: [0.49, 0.5), and 0.5 over an even integer. */
  predicate RoundingsPart(x: real) {
    var fraction := x - x.Floor as real;
    0.49 <= fraction < 0.5 || (fraction == 0.5 && x.Floor % 2 == 0)
  }

  lemma RoundingsAgreeExactlyOutsideWindow(x: real)
    requires 0.0 <= x
    ensures CustomRound(x) == HalfEven(x) <==> !RoundingsPart(x)
    ensures RoundingsPart(x) ==> CustomRound(x) == HalfEven(x) + 1
  {
    var below := x.Floor;
    assert below as real <= x < (below + 1) as real;
    if x - below as real < 0.49 {
      assert (x + 0.01 + 0.5).Floor == below;
    } else {
      assert (x + 0.01 + 0.5).Floor == below + 1;
    }
  }

  lemma FloorOfDifference(a: int, b: int, s: int)
    requires 0 < b
    ensures (a as real / b as real - s as real).Floor == a / b - s
  {
    FloorOfQuotient(a, b);
    var quotient := a as real / b as real;
    assert (quotient - s as real).Floor == quotient.Floor - s;
  }

  lemma NegatedQuotient(a: real, b: real)
    requires 0.0 < b
    ensures -a / b == -(a / b)
  {
  }

  lemma TruncateBySign(x: real, y: real)
    requires y == -x
    ensures Truncate(x) == if 0 <= x.Floor then x.Floor else -y.Floor
  {
  }

  lemma TruncatedDifference(a: int, b: int, s: int)
    requires 0 < b
    ensures Truncate(a as real / b as real - s as real)
         == if s <= a / b then a / b - s else -((-a) / b + s)
  {
    FloorOfDifference(a, b, s);
    FloorOfDifference(-a, b, -s);
    NegatedQuotient(a as real, b as real);
    TruncateBySign(a as real / b as real - s as real, (-a) as real / b as real - (-s) as real);
  }

  lemma HalfEvenFixesIntegers(n: int)
    ensures HalfEven(n as real) == n
  {
  }

  lemma LongSatsColumnIsIntegerDivision(product: int, low: int, satoshis: int)
    requires 0 < low
    ensures LongSatsColumn(product, low, satoshis)
         == Some(if satoshis <= product / low then product / low - satoshis else -((-product) / low + satoshis))
  {
    HalfEvenFixesIntegers(product);
    TruncatedDifference(product, low, satoshis);
  }

  /** The column is a quotient less the amount, rounded down when that is not negative and up when
      it is. */
  lemma LongSatsSqlIsIntegerDivision(position: HedgePosition)
    requires 0 < LowLiquidationPriceSql(position)
    ensures var total, low := position.startPrice * position.satoshis, LowLiquidationPriceSql(position);
            LongSatsSql(position)
            == Some(if position.satoshis <= total / low then total / low - position.satoshis
                    else -((-total) / low + position.satoshis))
  {
    LongSatsColumnIsIntegerDivision(position.startPrice * position.satoshis, LowLiquidationPriceSql(position),
                                    position.satoshis);
  }

  lemma RoundsUpOnlyFromPositive(x: real)
    requires 0 < CustomRound(x)
    ensures 0.0 <= x
  {
  }

  /** The SQL low price is the Python one outside the window, and one less inside. */
  lemma LowPricesAgree(position: HedgePosition)
    requires 0 < position.LowLiquidationPrice()
    ensures LowLiquidationPriceSql(position)
         == position.LowLiquidationPrice() - if RoundingsPart(position.LowTarget()) then 1 else 0
  {
    RoundsUpOnlyFromPositive(position.LowTarget());
    RoundingsAgreeExactlyOutsideWindow(position.LowTarget());
  }

  lemma ProductCommutes(x: int, y: int)
    ensures x * y == y * x
  {
  }

  /** What a total of a satoshi-prices gives at two neighbouring low prices. */
  lemma QuotientsAtNeighbours(a: int, low: int)
    requires 0 <= a && 1 < low
    ensures a / (low - 1) == a / low <==> a % low + a / low < low - 1
  {
    var q, r := a / low, a % low;
    assert a == low * q + r;
    assert low * q == (low - 1) * q + q;
    QuotientIs(a, low - 1, q);
  }

  lemma QuotientIs(a: int, b: int, q: int)
    requires 0 < b
    ensures a / b == q <==> 0 <= a - b * q < b
  {
    var d := a / b;
    assert a == b * d + a % b;
    if 0 <= a - b * q < b {
      assert b * (d - q) == b * d - b * q;
      assert -b < b * (d - q) < b;
      SmallMultiple(b, d - q);
    }
  }

  lemma SmallMultiple(b: int, k: int)
    requires 0 < b && -b < b * k < b
    ensures k == 0
  {
    if k > 0 {
      CancelFactor(k, 1, b);
    } else if k < 0 {
      CancelFactor(-1, k, b);
    }
  }

  /** Inside the window the two columns still agree when the low price is high enough. */
  predicate PriceDropIsHarmless(position: HedgePosition)
    requires position.LowLiquidationPrice() != 0
  {
    var total, low := position.satoshis * position.startPrice, position.LowLiquidationPrice();
    total % low + total / low < low - 1
  }

  /** For sensible positions the column is the quotient at its own low price, less the amount. */
  lemma SqlAmount(position: HedgePosition)
    requires position.Sensible() && 0 < LowLiquidationPriceSql(position)
    ensures LongSatsSql(position)
         == Some(position.satoshis * position.startPrice / LowLiquidationPriceSql(position) - position.satoshis)
  {
    LowPricesAgree(position);
    LiquidationPricesBracketStart(position);
    ProductCommutes(position.satoshis, position.startPrice);
    QuotientAtLeast(position.satoshis, position.startPrice, LowLiquidationPriceSql(position));
    LongSatsSqlIsIntegerDivision(position);
  }

  /** The SQL column equals the Python property exactly outside the window, or where the lower
      divisor gives the same quotient. A low price of 1 inside the window makes the query fail. */
  lemma SqlAgreesWithPythonExactly(position: HedgePosition)
    requires position.Sensible()
    ensures position.Priced()
    ensures LongSatsSql(position) == Some(position.LongInputSats()) <==>
              !RoundingsPart(position.LowTarget()) || PriceDropIsHarmless(position)
    ensures LongSatsSql(position).None? <==>
              RoundingsPart(position.LowTarget()) && position.LowLiquidationPrice() == 1
  {
    LowPricesAgree(position);
    InputsSplitTotal(position);
    var low, total := position.LowLiquidationPrice(), position.satoshis * position.startPrice;
    if LowLiquidationPriceSql(position) > 0 {
      SqlAmount(position);
    }
    TotalIsNotNegative(position);
    if RoundingsPart(position.LowTarget()) && low > 1 {
      QuotientsAtNeighbours(total, low);
    }
  }

  lemma TotalIsNotNegative(position: HedgePosition)
    requires position.Sensible()
    ensures 0 <= position.satoshis * position.startPrice
    ensures position.LowLiquidationPrice() == 1 ==> !PriceDropIsHarmless(position)
  {
  }

  /** Inside the window they can differ: 100 sats at price 3, low multiplier 0.4975. */
  lemma SqlAndPythonCanDiffer()
    ensures var position := HedgePosition(100, 3, 0.4975, 2.0, true, []);
            position.Sensible() && position.LongInputSats() == 50 && LongSatsSql(position) == Some(200)
  {
    var position := HedgePosition(100, 3, 0.4975, 2.0, true, []);
    RoundedPrices(position, 1.4925, 2, 1);
    InputsSplitTotal(position);
    LongSatsSqlIsIntegerDivision(position);
  }

  /** And the query can fail: any amount at price 1, low multiplier 0.495. */
  lemma SqlQueryCanFail(satoshis: nat)
    ensures var position := HedgePosition(satoshis, 1, 0.495, 2.0, true, []);
            position.Sensible() && position.LongInputSats() == 0 && LongSatsSql(position) == None
  {
    var position := HedgePosition(satoshis, 1, 0.495, 2.0, true, []);
    RoundedPrices(position, 0.495, 1, 0);
    InputsSplitTotal(position);
  }

  /** What the two roundings give, for a target that is known to be near two integers. */
  lemma RoundedPrices(position: HedgePosition, target: real, python: int, sql: int)
    requires position.LowTarget() == target && 0.0 <= target
    requires python as real <= target + 0.51 < (python + 1) as real
    requires sql as real <= target < sql as real + 0.5
    ensures position.LowLiquidationPrice() == python && LowLiquidationPriceSql(position) == sql
  {
    assert (target + 0.01 + 0.5).Floor == python;
    assert target.Floor == sql;
  }
}
