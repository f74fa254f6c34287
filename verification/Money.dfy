/** Monetary rounding: amounts are quantized to 10^-places with a Decimal rounding mode.

    A rounded amount is represented by its number of quanta, so sums of rounded amounts are
    sums of naturals. Every amount the engine rounds is non-negative. */
module MoneyRounding {
  import opened Domain

  /** A whole number of money quanta. */
  type Money = nat

  function Pow10(n: nat): (r: nat)
    ensures r >= 1
  {
    if n == 0 then 1 else 10 * Pow10(n - 1)
  }

  /** `Decimal.quantize` of a non-negative amount measured in quanta. */
  function RoundUnits(x: real, mode: Rounding): nat
    requires x >= 0.0
  {
    var whole := x.Floor;
    var rest := x - whole as real;
    if rest == 0.0 then whole
    else match mode
      case Up | Ceiling => whole + 1
      case Down | Floor => whole
      case HalfUp => if rest >= 0.5 then whole + 1 else whole
      case HalfDown => if rest > 0.5 then whole + 1 else whole
      case HalfEven => if rest > 0.5 || (rest == 0.5 && whole % 2 == 1) then whole + 1 else whole
      case ZeroFiveUp => if whole % 5 == 0 then whole + 1 else whole
  }

  /** The amount measured in quanta. */
  function Scaled(amount: real, config: Config): (r: real)
    requires amount >= 0.0
    ensures r >= 0.0
  {
    amount * Pow10(config.places) as real
  }

  function RoundMoney(amount: real, config: Config): Money
    requires amount >= 0.0
  {
    RoundUnits(Scaled(amount, config), config.rounding)
  }

  /** The decimal amount a whole number of quanta stands for. */
  function AmountOf(money: Money, config: Config): (r: real)
    ensures r >= 0.0
  {
    money as real / Pow10(config.places) as real
  }

  lemma RoundUnitsMonotone(x: real, y: real, mode: Rounding)
    requires 0.0 <= x <= y
    ensures RoundUnits(x, mode) <= RoundUnits(y, mode)
  {
    assert x.Floor <= y.Floor;
    if x.Floor < y.Floor {
      assert RoundUnits(x, mode) <= x.Floor + 1;
    }
  }

  /** No rounding mode reverses the order of two amounts. */
  lemma RoundMonotone(x: real, y: real, config: Config)
    requires 0.0 <= x <= y
    ensures RoundMoney(x, config) <= RoundMoney(y, config)
  {
    assert Scaled(x, config) <= Scaled(y, config);
    RoundUnitsMonotone(Scaled(x, config), Scaled(y, config), config.rounding);
  }

  /** Rounding an amount that is already a whole number of quanta changes nothing. */
  lemma RoundExact(money: Money, config: Config)
    ensures RoundMoney(AmountOf(money, config), config) == money
  {
    assert Scaled(AmountOf(money, config), config) == money as real;
  }

  lemma RoundZero(config: Config)
    ensures RoundMoney(0.0, config) == 0
  {
  }

  /** The rounded amount is less than one quantum away, and the three half modes take a
      nearest quantum; of two equally near ones half-up takes the larger. */
  lemma RoundIsNear(amount: real, config: Config)
    requires amount >= 0.0
    ensures var x := Scaled(amount, config);
            var m := RoundMoney(amount, config) as real;
            && -1.0 < m - x < 1.0
            && (config.rounding in {HalfUp, HalfDown, HalfEven} ==> -0.5 <= m - x <= 0.5)
            && (config.rounding == HalfUp ==> -0.5 < m - x)
  {
  }

  /** What each rounding mode makes of an amount x measured in quanta. */
  ghost predicate RoundsTo(x: real, m: real, mode: Rounding) {
    match mode
    case Up | Ceiling => m - 1.0 < x <= m
    case Down | Floor => m <= x < m + 1.0
    case HalfUp => m - 0.5 <= x < m + 0.5
    case HalfDown => m - 0.5 < x <= m + 0.5
    case HalfEven => m - 0.5 <= x <= m + 0.5 && (x == m - 0.5 || x == m + 0.5 ==> m.Floor % 2 == 0)
    case ZeroFiveUp => m - 1.0 < x < m + 1.0 && (if x < m then m.Floor % 5 == 1 else x == m || m.Floor % 5 != 0)
  }

  lemma RoundsAsAsked(x: real, mode: Rounding)
    requires x >= 0.0
    ensures RoundsTo(x, RoundUnits(x, mode) as real, mode)
  {
    assert (x.Floor as real).Floor == x.Floor && ((x.Floor + 1) as real).Floor == x.Floor + 1;
  }

  lemma RoundsToOne(x: real, m: nat, n: nat, mode: Rounding)
    requires m < n
    ensures !RoundsTo(x, m as real, mode) || !RoundsTo(x, n as real, mode)
  {
    assert (m as real).Floor == m && (n as real).Floor == n;
    assert m as real + 1.0 <= n as real;
    if n > m + 1 {
      assert m as real + 2.0 <= n as real;
    }
  }

  /** A rounded amount is the one whole number that its mode asks for. */
  lemma RoundsExactly(x: real, mode: Rounding, m: nat)
    requires x >= 0.0
    ensures m == RoundUnits(x, mode) <==> RoundsTo(x, m as real, mode)
  {
    var r := RoundUnits(x, mode);
    RoundsAsAsked(x, mode);
    if m < r {
      RoundsToOne(x, m, r, mode);
    } else if r < m {
      RoundsToOne(x, r, m, mode);
    }
  }

  /** `places` more digits are kept by quanta smaller by that power of ten. */
  lemma {:induction false} PlacesAdd(a: nat, b: nat)
    ensures Pow10(1) == 10
    ensures Pow10(a + b) == Pow10(a) * Pow10(b)
  {
    if a > 0 {
      PlacesAdd(a - 1, b);
      assert Pow10(a + b) == 10 * Pow10(a - 1 + b);
    }
  }

  /** With two decimal places the quantum is a hundredth. */
  lemma Hundredths(amount: real, config: Config)
    requires amount >= 0.0 && config.places == 2
    ensures RoundMoney(amount, config) == RoundUnits(amount * 100.0, config.rounding)
    ensures AmountOf(RoundMoney(amount, config), config) * 100.0 == RoundMoney(amount, config) as real
  {
    PlacesAdd(1, 1);
  }
}
