/** The small arithmetic of drivers/power/charge_animation.c: the digits of the
    state of charge and the battery voltage drawn on the GO Advance charge
    screen, and the charging time split into seconds and milliseconds. */
module ChargeArith {

  /** Dafny's `/` on a non-negative dividend is floor division. */
  lemma {:induction false} DivNonNeg(a: int, b: int)
    requires a >= 0 && b > 0
    ensures 0 <= a / b && (a / b) * b <= a < (a / b) * b + b
  {
    var q, r := a / b, a % b;
    assert a == q * b + r && 0 <= r < b;
  }

  /** C's `/` on int, which truncates toward zero (`b > 0`). */
  function CDiv(a: int, b: int): (q: int)
    requires b > 0
    ensures a >= 0 ==> 0 <= q && q * b <= a < q * b + b
    ensures a < 0 ==> q <= 0 && q * b - b < a <= q * b
  {
    if a >= 0 then DivNonNeg(a, b); a / b
    else DivNonNeg(-a, b); -((-a) / b)
  }

  /** C's `%` on int: the remainder takes the sign of the dividend. */
  function CMod(a: int, b: int): (r: int)
    requires b > 0
    ensures a == CDiv(a, b) * b + r
    ensures a >= 0 ==> 0 <= r < b
    ensures a < 0 ==> -b < r <= 0
  {
    a - CDiv(a, b) * b
  }

  datatype Digits = Digits(hundreds: int, tens: int, units: int)

  /** `hundreds = soc / 100; tens = (soc / 10) % 10; units = soc % 10`. */
  function SocDigits(soc: int): Digits
  {
    Digits(CDiv(soc, 100), CMod(CDiv(soc, 10), 10), CMod(soc, 10))
  }

  /** For a state of charge from 0 to 100 the three digits are decimal digits
      that spell it, and the leading "1" (drawn only when `hundreds == 1`)
      appears exactly for 100. */
  lemma {:induction false} SocDigitsSpell(soc: int)
    requires 0 <= soc <= 100
    ensures var g := SocDigits(soc);
            0 <= g.tens <= 9 && 0 <= g.units <= 9 &&
            g.hundreds * 100 + g.tens * 10 + g.units == soc &&
            (g.hundreds == 1 <==> soc == 100)
  {
    var g := SocDigits(soc);
    assert soc / 10 == (soc / 100) * 10 + (soc / 10) % 10;
  }

  /** With C's truncating division the digits of a negative value (an error
      code from the fuel gauge) are zero or negative, never positive. */
  lemma {:induction false} NegativeSocDigits(soc: int)
    requires -100 < soc < 0
    ensures var g := SocDigits(soc);
            g.hundreds == 0 && -9 <= g.tens <= 0 && -9 <= g.units <= 0 &&
            g.tens * 10 + g.units == soc
  {
    var q := (-soc) / 10;
    assert -soc == q * 10 + (-soc) % 10;
  }

  datatype Volts = Volts(whole: int, tenths: int)

  /** The `battery : %d.%d V` text: `battery / 1000` and `(battery % 1000) / 100`. */
  function BatteryVolts(mv: int): Volts
  {
    Volts(CDiv(mv, 1000), CDiv(CMod(mv, 1000), 100))
  }

  /** For a valid reading the text is the voltage in volts rounded down to a
      tenth. */
  lemma {:induction false} BatteryVoltsRoundsDown(mv: int)
    requires mv >= 0
    ensures var v := BatteryVolts(mv);
            0 <= v.tenths <= 9 &&
            v.whole * 1000 + v.tenths * 100 <= mv < v.whole * 1000 + v.tenths * 100 + 100
  {
    var r := mv % 1000;
    assert mv == (mv / 1000) * 1000 + r;
    assert r == (r / 100) * 100 + r % 100;
  }

  datatype ChargeTime = ChargeTime(sec: nat, ms: nat)

  /** The charging-time split: below one second `sec` stays 0, otherwise
      `sec = ms / 1000` and `ms = ms % 1000`; either way the pair is the
      total in whole seconds and leftover milliseconds. */
  function ChargingTime(total: nat): (t: ChargeTime)
    ensures t.sec * 1000 + t.ms == total && t.ms < 1000
  {
    if total >= 1000 then ChargeTime(total / 1000, total % 1000) else ChargeTime(0, total)
  }
}
