/** The composite ranking score and the HOT / WATCH / AVOID classifier. */
module Scoring {
  import opened Wrappers
  import opened Games

  // Policy constants: score weights (they sum to 1) and category thresholds.
  const MillionWeight: real := 0.40
  const LossMinWeight: real := 0.30
  const DifferentialWeight: real := 0.20
  const FreshnessWeight: real := 0.10

  const HotMillionPct: real := 70.0
  const HotMargin: real := 10.0
  const AvoidMillionPct: real := 30.0
  const AvoidMargin: real := 15.0

  /** The differential mapped affinely from [-30, 30] onto [0, 100], clamped outside. */
  function DiffNormalized(diff: real): (r: real)
    ensures 0.0 <= r <= 100.0
    ensures diff <= -30.0 ==> r == 0.0
    ensures diff >= 30.0 ==> r == 100.0
    ensures -30.0 <= diff <= 30.0 ==> r * 60.0 == (diff + 30.0) * 100.0
  {
    var scaled := (diff + 30.0) * (100.0 / 60.0);
    var capped := if scaled < 100.0 then scaled else 100.0;
    if capped > 0.0 then capped else 0.0
  }

  /** Freshness step function of the game's age in days; an unknown age is neutral (50). */
  function Freshness(days: Option<int>): (f: int)
    ensures f == 25 || f == 50 || f == 75 || f == 100
    ensures f == 50 <==> days.None? || 90 <= days.value < 180
    ensures f == 100 <==> days.Some? && days.value < 30
    ensures f == 25 <==> days.Some? && days.value >= 180
  {
    match days
    case None => 50
    case Some(d) =>
      if d < 30 then 100
      else if d < 90 then 75
      else if d < 180 then 50
      else 25
  }

  /** An older game is never fresher. */
  lemma FreshnessNonIncreasing(d1: int, d2: int)
    requires d1 <= d2
    ensures Freshness(Some(d2)) <= Freshness(Some(d1))
  {
  }

  /** The weighted blend of the four sub-scores. The weights sum to 1, so
      sub-scores in [0, 100] give a score in [0, 100]. */
  function WeightedScore(millionPct: real, lossMin: real, diffNorm: real, freshness: real): (r: real)
    ensures (0.0 <= millionPct <= 100.0 && 0.0 <= lossMin <= 100.0 && 0.0 <= diffNorm <= 100.0 &&
             0.0 <= freshness <= 100.0) ==> 0.0 <= r <= 100.0
    ensures millionPct == lossMin == diffNorm == freshness ==> r == millionPct
  {
    millionPct * MillionWeight + lossMin * LossMinWeight + diffNorm * DifferentialWeight + freshness * FreshnessWeight
  }

  lemma WeightedScoreMonotone(m1: real, m2: real, lossMin: real, diffNorm: real, f1: real, f2: real)
    requires m1 <= m2 && f1 <= f2
    ensures WeightedScore(m1, lossMin, diffNorm, f1) <= WeightedScore(m2, lossMin, diffNorm, f1)
    ensures WeightedScore(m1, lossMin, diffNorm, f1) <= WeightedScore(m1, lossMin, diffNorm, f2)
  {
  }

  /** Composite score of a game whose age is `days` (unknown when None). */
  function CompositeScore(g: GameData, days: Option<int>): (score: real)
    ensures score == WeightedScore(MillionHealth(g).percent, LossMinimizationScore(g),
                                   DiffNormalized(Differential(g)), Freshness(days) as real)
    ensures TiersWellFormed(g) ==> 2.5 <= score <= 100.0
  {
    var millionPct := MillionHealth(g).percent;
    var lossMin := LossMinimizationScore(g);
    var diffNorm := DiffNormalized(Differential(g));
    var freshness := Freshness(days);
    WeightedScore(millionPct, lossMin, diffNorm, freshness as real)
  }

  /** For the same game, a younger age never scores lower, and neither does
      raising its million health with the other sub-scores held fixed. */
  lemma CompositeScoreMonotone(g: GameData, d1: int, d2: int, higherMillionPct: real)
    requires d1 <= d2
    requires MillionHealth(g).percent <= higherMillionPct
    ensures CompositeScore(g, Some(d2)) <= CompositeScore(g, Some(d1))
    ensures CompositeScore(g, Some(d1)) <=
            WeightedScore(higherMillionPct, LossMinimizationScore(g), DiffNormalized(Differential(g)),
                          Freshness(Some(d1)) as real)
  {
    FreshnessNonIncreasing(d1, d2);
    WeightedScoreMonotone(MillionHealth(g).percent, higherMillionPct, LossMinimizationScore(g),
                          DiffNormalized(Differential(g)), Freshness(Some(d2)) as real, Freshness(Some(d1)) as real);
  }

  datatype Category = Hot | Watch | Avoid

  /** The label the report prints for a category; each category has its own label. */
  function Label(c: Category): (s: string)
    ensures s == "HOT" || s == "WATCH" || s == "AVOID"
    ensures s == "HOT" <==> c == Hot
    ensures s == "WATCH" <==> c == Watch
    ensures s == "AVOID" <==> c == Avoid
  {
    match c
    case Hot => "HOT"
    case Watch => "WATCH"
    case Avoid => "AVOID"
  }

  /** The rule chain, first match wins. Either HOT rule wins over both AVOID
      rules, and WATCH means million health lies within the band the two
      margins leave around the bottom tier's percentage. */
  function Categorize(millionPct: real, bottomPct: real, diff: real): (c: Category)
    ensures millionPct >= HotMillionPct && diff > 0.0 ==> c == Hot
    ensures millionPct > bottomPct + HotMargin ==> c == Hot
    ensures c == Watch ==> AvoidMillionPct <= millionPct &&
                           bottomPct - AvoidMargin <= millionPct <= bottomPct + HotMargin
    ensures c == Avoid ==> millionPct < AvoidMillionPct || millionPct < bottomPct - AvoidMargin
  {
    if millionPct >= HotMillionPct && diff > 0.0 then Hot
    else if millionPct > bottomPct + HotMargin then Hot
    else if millionPct < AvoidMillionPct then Avoid
    else if millionPct < bottomPct - AvoidMargin then Avoid
    else Watch
  }

  /** A game with well-formed tiers and no million-plus tier is always AVOID. */
  function CategorizeGame(g: GameData): (c: Category)
    ensures TiersWellFormed(g) && !HasMillionPlus(g) ==> c == Avoid
  {
    Categorize(MillionHealth(g).percent, BottomDepletion(g), Differential(g))
  }

  /** Exactly when each category is chosen, with the rules' overlaps resolved by their order. */
  lemma CategorizeCharacterized(m: real, b: real, d: real)
    ensures Categorize(m, b, d) == Hot <==> (m >= HotMillionPct && d > 0.0) || m > b + HotMargin
    ensures Categorize(m, b, d) == Avoid <==>
              !(m >= HotMillionPct && d > 0.0) && m <= b + HotMargin &&
              (m < AvoidMillionPct || m < b - AvoidMargin)
    ensures Categorize(m, b, d) == Watch <==>
              !(m >= HotMillionPct && d > 0.0) && b - AvoidMargin <= m <= b + HotMargin &&
              m >= AvoidMillionPct
  {
  }

  /** Healthier million-plus tiers never demote a HOT game, and a game that
      is AVOID stays AVOID when they get worse. */
  lemma CategorizeMonotone(m1: real, m2: real, b: real, d: real)
    requires m1 <= m2
    ensures Categorize(m1, b, d) == Hot ==> Categorize(m2, b, d) == Hot
    ensures Categorize(m2, b, d) == Avoid ==> Categorize(m1, b, d) == Avoid
  {
  }

  /** Rule 2 can make a game HOT that rule 1 rejects for its negative differential. */
  lemma RuleTwoExample()
    ensures Categorize(75.0, 50.0, -5.0) == Hot
  {
  }

  /** With exact arithmetic, million health 57 against bottom depletion 72
      sits exactly on the second AVOID margin and is WATCH. */
  lemma BoundaryIsWatch(diff: real)
    ensures Categorize(57.0, 72.0, diff) == Watch
  {
  }

  /** A game without tiers has zero million health, loss score, differential
      and depletion, is AVOID, and scores `10 + freshness / 10`. */
  lemma EmptyGameIsAvoid(g: GameData, days: Option<int>)
    requires |g.prizeTiers| == 0
    ensures MillionHealth(g) == Health(0, 0, 0.0)
    ensures LossMinimizationScore(g) == 0.0
    ensures Differential(g) == 0.0 && BottomDepletion(g) == 0.0
    ensures CategorizeGame(g) == Avoid
    ensures CompositeScore(g, days) == 10.0 + 0.1 * (Freshness(days) as real)
  {
  }
}
