/** A scratch-off game and the metrics derived from its prize tiers. */
module Games {
  import opened Wrappers
  import opened Seqs
  import opened PrizeTiers

  /** The game record as assembled by the scraper. `startDate` is kept as
      the free-form text it arrives in; the age it implies is an input of
      the scorer (see `Scoring.CompositeScore`). */
  datatype GameData = GameData(
    gameNumber: string,
    gameName: string,
    ticketPrice: real,
    url: string,
    startDate: Option<string>,
    status: string,
    prizeTiers: seq<PrizeTier>)

  /** `(remaining, total, percent)` over the million-plus tiers. */
  datatype Health = Health(remaining: int, total: int, percent: real)

  predicate TiersWellFormed(g: GameData) {
    forall t :: t in g.prizeTiers ==> WellFormed(t)
  }

  // ---------------------------------------------------------------------
  // Top and bottom prize: Python's max/min with a key scan left to right and
  // replace the candidate only on a strictly larger (smaller) key, so the
  // first tier with the extreme value wins.

  function TopIndex(tiers: seq<PrizeTier>): (k: nat)
    requires |tiers| > 0
    ensures k < |tiers|
    ensures forall j :: 0 <= j < |tiers| ==> tiers[j].value <= tiers[k].value
    ensures forall j :: 0 <= j < k ==> tiers[j].value < tiers[k].value
  {
    if |tiers| == 1 then 0
    else
      var k := TopIndex(tiers[..|tiers| - 1]);
      if tiers[|tiers| - 1].value > tiers[k].value then |tiers| - 1 else k
  }

  function BottomIndex(tiers: seq<PrizeTier>): (k: nat)
    requires |tiers| > 0
    ensures k < |tiers|
    ensures forall j :: 0 <= j < |tiers| ==> tiers[k].value <= tiers[j].value
    ensures forall j :: 0 <= j < k ==> tiers[k].value < tiers[j].value
  {
    if |tiers| == 1 then 0
    else
      var k := BottomIndex(tiers[..|tiers| - 1]);
      if tiers[|tiers| - 1].value < tiers[k].value then |tiers| - 1 else k
  }

  /** The tier of largest value, the first one among equals; none for a game without tiers. */
  function TopPrize(g: GameData): (r: Option<PrizeTier>)
    ensures r.None? <==> |g.prizeTiers| == 0
    ensures r.Some? ==> forall t :: t in g.prizeTiers ==> t.value <= r.value.value
    ensures r.Some? ==> exists k :: 0 <= k < |g.prizeTiers| && g.prizeTiers[k] == r.value &&
                          forall j :: 0 <= j < k ==> g.prizeTiers[j].value < r.value.value
  {
    if |g.prizeTiers| == 0 then None else Some(g.prizeTiers[TopIndex(g.prizeTiers)])
  }

  /** The tier of smallest value, the first one among equals; none for a game without tiers. */
  function BottomPrize(g: GameData): (r: Option<PrizeTier>)
    ensures r.None? <==> |g.prizeTiers| == 0
    ensures r.Some? ==> forall t :: t in g.prizeTiers ==> r.value.value <= t.value
    ensures r.Some? ==> exists k :: 0 <= k < |g.prizeTiers| && g.prizeTiers[k] == r.value &&
                          forall j :: 0 <= j < k ==> r.value.value < g.prizeTiers[j].value
  {
    if |g.prizeTiers| == 0 then None else Some(g.prizeTiers[BottomIndex(g.prizeTiers)])
  }

  // ---------------------------------------------------------------------
  // Tier groups: each is exactly the tiers in its range, in game order.

  function MillionPlusTiers(g: GameData): (r: seq<PrizeTier>)
    ensures forall t :: t in r <==> t in g.prizeTiers && IsMillionPlus(t)
  {
    Filter(g.prizeTiers, IsMillionPlus)
  }

  function BreakEvenTiers(g: GameData): (r: seq<PrizeTier>)
    ensures forall t :: t in r <==> t in g.prizeTiers && IsBreakEven(t, g.ticketPrice)
  {
    Filter(g.prizeTiers, t => IsBreakEven(t, g.ticketPrice))
  }

  function SmallWinTiers(g: GameData): (r: seq<PrizeTier>)
    ensures forall t :: t in r <==> t in g.prizeTiers && IsSmallWin(t)
  {
    Filter(g.prizeTiers, IsSmallWin)
  }

  function MediumWinTiers(g: GameData): (r: seq<PrizeTier>)
    ensures forall t :: t in r <==> t in g.prizeTiers && IsMediumWin(t)
  {
    Filter(g.prizeTiers, IsMediumWin)
  }

  // ---------------------------------------------------------------------
  // Sums over a tier group, as Python's `sum(t.total for t in group)`.

  /** Summed printed count: 0 for no tier, a tier's own total for one tier,
      and additive over concatenation (`SumsConcat`), which determines it. */
  function SumTotal(tiers: seq<PrizeTier>): (r: int)
    ensures |tiers| == 0 ==> r == 0
    ensures |tiers| == 1 ==> r == tiers[0].total
  {
    if |tiers| == 0 then 0 else tiers[0].total + SumTotal(tiers[1..])
  }

  /** Summed unclaimed count, determined in the same way. */
  function SumRemaining(tiers: seq<PrizeTier>): (r: int)
    ensures |tiers| == 0 ==> r == 0
    ensures |tiers| == 1 ==> r == tiers[0].remaining
  {
    if |tiers| == 0 then 0 else tiers[0].remaining + SumRemaining(tiers[1..])
  }

  /** A sum over a concatenation is the sum of the parts. */
  lemma {:induction false} SumsConcat(a: seq<PrizeTier>, b: seq<PrizeTier>)
    ensures SumTotal(a + b) == SumTotal(a) + SumTotal(b)
    ensures SumRemaining(a + b) == SumRemaining(a) + SumRemaining(b)
  {
    if |a| > 0 {
      assert (a + b)[0] == a[0] && (a + b)[1..] == a[1..] + b;
      SumsConcat(a[1..], b);
    } else {
      assert a + b == b;
    }
  }

  /** Well-formed tiers add up to well-formed counts. */
  lemma {:induction false} SumsBounded(tiers: seq<PrizeTier>)
    ensures (forall t :: t in tiers ==> WellFormed(t)) ==> 0 <= SumRemaining(tiers) <= SumTotal(tiers)
  {
    if |tiers| > 0 {
      assert tiers[0] in tiers;
      assert forall t :: t in tiers[1..] ==> t in tiers;
      SumsBounded(tiers[1..]);
    }
  }

  /** `remaining / total * 100` when `total > 0`, and 0 otherwise: the guard
      every group percentage uses. */
  function GuardedPercent(remaining: int, total: int): (r: real)
    ensures total <= 0 ==> r == 0.0
    ensures total > 0 ==> r * (total as real) == (remaining as real) * 100.0
    ensures 0 <= remaining <= total ==> 0.0 <= r <= 100.0
  {
    if total > 0 then Ratio100(remaining, total) else 0.0
  }

  /** Remaining/total percentage of a group, taken over the group's summed
      counts; an empty group or one whose summed total is not positive
      reports 0. */
  function GroupPercent(group: seq<PrizeTier>): (r: real)
    ensures SumTotal(group) <= 0 ==> r == 0.0
    ensures SumTotal(group) > 0 ==> r * (SumTotal(group) as real) == (SumRemaining(group) as real) * 100.0
    ensures (forall t :: t in group ==> WellFormed(t)) ==> 0.0 <= r <= 100.0
  {
    SumsBounded(group);
    if |group| == 0 then 0.0 else GuardedPercent(SumRemaining(group), SumTotal(group))
  }

  // ---------------------------------------------------------------------
  // Game metrics

  function HasMillionPlus(g: GameData): (b: bool)
    ensures b <==> exists i :: 0 <= i < |g.prizeTiers| && IsMillionPlus(g.prizeTiers[i])
  {
    var tiers := MillionPlusTiers(g);
    assert |tiers| > 0 ==> tiers[0] in tiers;
    |tiers| > 0
  }

  /** Million health: the summed remaining and total counts of the
      million-plus tiers, with their percentage. */
  function MillionHealth(g: GameData): (h: Health)
    ensures h.remaining == SumRemaining(MillionPlusTiers(g))
    ensures h.total == SumTotal(MillionPlusTiers(g))
    ensures h.percent == GroupPercent(MillionPlusTiers(g))
    ensures !HasMillionPlus(g) ==> h == Health(0, 0, 0.0)
    ensures TiersWellFormed(g) ==> 0 <= h.remaining <= h.total && 0.0 <= h.percent <= 100.0
  {
    var tiers := MillionPlusTiers(g);
    if |tiers| == 0 then Health(0, 0, 0.0)
    else
      var total := SumTotal(tiers);
      var remaining := SumRemaining(tiers);
      SumsBounded(tiers);
      Health(remaining, total, GuardedPercent(remaining, total))
  }

  /** Top prize percentage minus bottom prize percentage; 0 without tiers. */
  function Differential(g: GameData): (d: real)
    ensures |g.prizeTiers| == 0 ==> d == 0.0
    ensures |g.prizeTiers| > 0 ==>
      d == PercentRemaining(TopPrize(g).value) - PercentRemaining(BottomPrize(g).value)
    ensures TiersWellFormed(g) ==> -100.0 <= d <= 100.0
  {
    match (TopPrize(g), BottomPrize(g))
    case (Some(top), Some(bottom)) => PercentRemaining(top) - PercentRemaining(bottom)
    case _ => 0.0
  }

  const BreakEvenWeight: real := 0.50
  const SmallWinWeight: real := 0.30
  const MediumWinWeight: real := 0.20

  /** The 50/30/20 blend of the break-even, small-win and medium-win group percentages. */
  function LossMinimizationScore(g: GameData): (r: real)
    ensures r == BreakEvenWeight * GroupPercent(BreakEvenTiers(g))
               + SmallWinWeight * GroupPercent(SmallWinTiers(g))
               + MediumWinWeight * GroupPercent(MediumWinTiers(g))
    ensures TiersWellFormed(g) ==> 0.0 <= r <= 100.0
  {
    var bePct := GroupPercent(BreakEvenTiers(g));
    var swPct := GroupPercent(SmallWinTiers(g));
    var mwPct := GroupPercent(MediumWinTiers(g));
    bePct * BreakEvenWeight + swPct * SmallWinWeight + mwPct * MediumWinWeight
  }

  /** Percentage of the bottom prize still unclaimed: how far the game has sold through. */
  function BottomDepletion(g: GameData): (r: real)
    ensures |g.prizeTiers| == 0 ==> r == 0.0
    ensures |g.prizeTiers| > 0 ==> r == PercentRemaining(BottomPrize(g).value)
    ensures TiersWellFormed(g) ==> 0.0 <= r <= 100.0
  {
    match BottomPrize(g)
    case None => 0.0
    case Some(bottom) => PercentRemaining(bottom)
  }

  // ---------------------------------------------------------------------
  // Worked examples

  /** A $1 tier fully unclaimed and a $1M tier one-fifth unclaimed: 20 - 100. */
  lemma DifferentialExample()
    ensures Differential(GameData("1", "Example", 1.0, "", None, "",
              [PrizeTier(1.0, 10, 10), PrizeTier(1000000.0, 5, 1)])) == -80.0
  {
    var g := GameData("1", "Example", 1.0, "", None, "",
              [PrizeTier(1.0, 10, 10), PrizeTier(1000000.0, 5, 1)]);
    assert TopIndex(g.prizeTiers) == 1 by {
      assert TopIndex(g.prizeTiers[..1]) == 0;
    }
    assert BottomIndex(g.prizeTiers) == 0 by {
      assert BottomIndex(g.prizeTiers[..1]) == 0;
    }
  }

  /** A $5 game with break-even tiers at 80/100, small wins at 40/100 and
      medium wins at 10/50: 80 * 0.5 + 40 * 0.3 + 20 * 0.2. */
  lemma LossMinimizationExample()
    ensures LossMinimizationScore(GameData("2", "Example", 5.0, "", None, "", ExampleTiers())) == 56.0
  {
    var g := GameData("2", "Example", 5.0, "", None, "", ExampleTiers());
    ExampleGroups(g);
    var be, sw, mw := GroupPercent(BreakEvenTiers(g)), GroupPercent(SmallWinTiers(g)), GroupPercent(MediumWinTiers(g));
    assert be == 80.0 && sw == 40.0 && mw == 20.0;
  }

  function ExampleTiers(): seq<PrizeTier> {
    [PrizeTier(10.0, 100, 80), PrizeTier(500.0, 100, 40), PrizeTier(5000.0, 50, 10), PrizeTier(1000000.0, 4, 2)]
  }

  lemma ExampleGroups(g: GameData)
    requires g.ticketPrice == 5.0 && g.prizeTiers == ExampleTiers()
    ensures GroupPercent(BreakEvenTiers(g)) == 80.0
    ensures GroupPercent(SmallWinTiers(g)) == 40.0
    ensures GroupPercent(MediumWinTiers(g)) == 20.0
  {
    var tiers := g.prizeTiers;
    assert tiers[1..][1..][1..][1..] == [];
    assert BreakEvenTiers(g) == [tiers[0]];
    assert SmallWinTiers(g) == [tiers[1]];
    assert MediumWinTiers(g) == [tiers[2]];
    SingleGroupPercent(tiers[0]);
    SingleGroupPercent(tiers[1]);
    SingleGroupPercent(tiers[2]);
  }

  lemma SingleGroupPercent(t: PrizeTier)
    requires t.total > 0
    ensures GroupPercent([t]) == PercentRemaining(t)
  {
    assert [t][1..] == [];
    assert SumTotal([t]) == t.total && SumRemaining([t]) == t.remaining;
  }
}
