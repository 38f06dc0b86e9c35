/** One prize tier of a scratch-off game: a prize value with the number of
    tickets printed at that value and the number still unclaimed. */
module PrizeTiers {

  /** `value` is a dollar amount; `total` and `remaining` are unbounded
      integers, since the scraper reads them with Python's `int()`. */
  datatype PrizeTier = PrizeTier(value: real, total: int, remaining: int)

  const MillionFloor: real := 1000000.0
  const SmallWinFloor: real := 500.0
  const SmallWinCeiling: real := 1000.0
  const MediumWinFloor: real := 2000.0
  const MediumWinCeiling: real := 10000.0

  /** Counts that make sense: nothing negative and no more unclaimed prizes
      than were printed. The engine does not demand this; it only bounds
      the percentages. */
  predicate WellFormed(t: PrizeTier) {
    0 <= t.remaining <= t.total
  }

  /** `part / whole * 100` with real division. */
  function Ratio100(part: int, whole: int): (r: real)
    requires whole != 0
    ensures r * (whole as real) == (part as real) * 100.0
    ensures 0 <= part <= whole ==> 0.0 <= r <= 100.0
  {
    RatioBounds(part, whole);
    (part as real) / (whole as real) * 100.0
  }

  lemma RatioBounds(part: int, whole: int)
    requires whole != 0
    ensures (part as real) / (whole as real) * 100.0 * (whole as real) == (part as real) * 100.0
    ensures 0 <= part <= whole ==> 0.0 <= (part as real) / (whole as real) <= 1.0
  {
    var q := (part as real) / (whole as real);
    assert q * (whole as real) == part as real;
    if 0 <= part <= whole {
    }
  }

  /** Percentage of the tier still unclaimed; a tier with no printed tickets
      reports 0 instead of dividing by zero. */
  function PercentRemaining(t: PrizeTier): (r: real)
    ensures t.total == 0 ==> r == 0.0
    ensures t.total != 0 ==> r * (t.total as real) == (t.remaining as real) * 100.0
    ensures WellFormed(t) ==> 0.0 <= r <= 100.0
  {
    if t.total == 0 then 0.0 else Ratio100(t.remaining, t.total)
  }

  /** Million-plus tier: worth $1,000,000 or more. No such tier is also a small or medium win. */
  predicate IsMillionPlus(t: PrizeTier): (b: bool)
    ensures b <==> t.value >= 1000000.0
    ensures b ==> !IsSmallWin(t) && !IsMediumWin(t)
  {
    t.value >= MillionFloor
  }

  /** Break-even tier: between twice and ten times the ticket price, both
      ends included; a negative price has no break-even tier. */
  predicate IsBreakEven(t: PrizeTier, ticketPrice: real): (b: bool)
    ensures b <==> 2.0 * ticketPrice <= t.value && t.value <= 10.0 * ticketPrice
    ensures ticketPrice < 0.0 ==> !b
  {
    ticketPrice * 2.0 <= t.value <= ticketPrice * 10.0
  }

  /** Small-win tier: $500 to $1,000, both ends included. No such tier is also a medium win. */
  predicate IsSmallWin(t: PrizeTier): (b: bool)
    ensures b <==> 500.0 <= t.value && t.value <= 1000.0
    ensures b ==> !IsMediumWin(t)
  {
    SmallWinFloor <= t.value <= SmallWinCeiling
  }

  /** Medium-win tier: $2,000 to $10,000, both ends included. */
  predicate IsMediumWin(t: PrizeTier): (b: bool)
    ensures b <==> 2000.0 <= t.value && t.value <= 10000.0
    ensures b ==> t.value < 1000000.0
  {
    MediumWinFloor <= t.value <= MediumWinCeiling
  }

  /** Every range is closed: its end points belong to it. */
  lemma RangeEndsIncluded(total: int, remaining: int, ticketPrice: real)
    requires ticketPrice >= 0.0
    ensures IsMillionPlus(PrizeTier(1000000.0, total, remaining))
    ensures !IsMillionPlus(PrizeTier(999999.99, total, remaining))
    ensures IsBreakEven(PrizeTier(2.0 * ticketPrice, total, remaining), ticketPrice)
    ensures IsBreakEven(PrizeTier(10.0 * ticketPrice, total, remaining), ticketPrice)
    ensures IsSmallWin(PrizeTier(500.0, total, remaining)) && IsSmallWin(PrizeTier(1000.0, total, remaining))
    ensures IsMediumWin(PrizeTier(2000.0, total, remaining)) && IsMediumWin(PrizeTier(10000.0, total, remaining))
  {
  }

  /** The fixed-dollar ranges do not overlap. */
  lemma FixedRangesDisjoint(t: PrizeTier)
    ensures !(IsSmallWin(t) && IsMediumWin(t))
    ensures IsMillionPlus(t) ==> !IsSmallWin(t) && !IsMediumWin(t)
  {
  }

  /** The break-even range moves with the ticket price and can overlap a
      fixed one: a $500 tier of a $100 game is both break-even and a small win. */
  lemma BreakEvenOverlapsSmallWin(total: int, remaining: int)
    ensures IsBreakEven(PrizeTier(500.0, total, remaining), 100.0)
    ensures IsSmallWin(PrizeTier(500.0, total, remaining))
  {
  }
}
