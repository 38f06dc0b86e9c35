# NC Lottery million-dollar strategy monitor: the scoring engine

A Dafny model of the analysis and scoring engine of the NC Lottery
scratch-off monitor. It takes one snapshot of prize-tier inventory counts per
game, derives the following metrics, and ranks and classifies the games:

- million-plus health, the unclaimed share of the $1M+ prizes;
- the loss-minimisation blend of break-even, small-win and medium-win tiers;
- the top-versus-bottom differential;
- the bottom-tier depletion.

The model covers:

- `PrizeTiers` (`prize_tier.dfy`): the prize tier record, its division-guarded
  percentage and its four closed value ranges.
- `Games` (`game.dfy`): the game record, first-encountered top and bottom
  prizes, the four tier groups, group sums and percentages, and the game
  metrics.
- `Scoring` (`scoring.dfy`): the clamped differential normalisation, the
  freshness step function, the 40/30/20/10 composite score and the ordered
  HOT/AVOID/WATCH rule chain. The weights and thresholds are named constants.
- `Ranking` (`ranking.dfy`): the price and million-plus filters that choose
  the games, the scored triples, and a stable descending sort by score. The
  specification of the sort is the function `SortByScore`. The method
  `SortByScoreInPlace` sorts an array in place and is proved equal to it. The
  ranking then splits the sorted list into the three category lists.
- `Seqs` (`seqs.dfy`): the list-comprehension filter. `Wrappers`
  (`wrappers.dfy`): `Option`.

Python `float` quantities are exact `real`s. Prize counts are unbounded
`int`s, because the scraper reads them with Python's `int()`, which also
accepts negative numbers. Every metric is defined for any counts. The bounds
lemmas assume well-formed tiers (`0 <= remaining <= total`).

Notes on the code's behaviour:

- Freshness is 50 for an unknown age and also for an age of 90 to 179 days.
  `Scoring.Freshness` states the exact condition for each of its four values.
- A game with no tiers has zero million health, loss score, differential and
  depletion. Its differential of 0 normalises to 50, so its composite score
  is `10 + freshness / 10` rather than 0 (`Scoring.EmptyGameIsAvoid`).
- The small-win, medium-win and million-plus ranges are disjoint. The
  break-even range moves with the ticket price and can overlap them: a $500
  tier of a $100 game is in both the break-even and the small-win group, and
  so counts twice in the loss-minimisation score
  (`PrizeTiers.FixedRangesDisjoint`, `PrizeTiers.BreakEvenOverlapsSmallWin`).
- The per-tier percentage guards `total == 0`. The group percentages and
  million health guard `total > 0`. With negative counts the two guards
  differ, and each is modelled as written.

## Model

| member | source | states |
|---|---|---|
| `PrizeTiers.PercentRemaining` | nc_lottery_million_monitor.py:46-50 | 0 when `total == 0`; otherwise the result times `total` equals `remaining * 100`; within [0, 100] for a well-formed tier |
| `PrizeTiers.IsMillionPlus` | nc_lottery_million_monitor.py:52-54 | true iff the value is at least $1,000,000; such a tier is neither a small nor a medium win |
| `PrizeTiers.IsBreakEven` | nc_lottery_million_monitor.py:56-60 | true iff the value lies between 2x and 10x the ticket price, both ends included; never true for a negative price |
| `PrizeTiers.IsSmallWin` | nc_lottery_million_monitor.py:62-64 | true iff the value lies in [$500, $1,000]; such a tier is not a medium win |
| `PrizeTiers.IsMediumWin` | nc_lottery_million_monitor.py:66-68 | true iff the value lies in [$2,000, $10,000]; such a tier is below $1M |
| `PrizeTiers.RangeEndsIncluded` | nc_lottery_million_monitor.py:52-68 | all four ranges are closed: $1,000,000, 2x and 10x the price, $500, $1,000, $2,000 and $10,000 are inside; $999,999.99 is not million-plus |
| `PrizeTiers.FixedRangesDisjoint` | nc_lottery_million_monitor.py:52-68 | no tier is both a small and a medium win, and a million-plus tier is neither |
| `PrizeTiers.BreakEvenOverlapsSmallWin` | nc_lottery_million_monitor.py:56-64 | a $500 tier of a $100 game is both break-even and a small win, so the price-relative range can overlap a fixed one |
| `Games.TopIndex` | nc_lottery_million_monitor.py:82-85 | the left-to-right scan returns an index whose value is at least that of every tier, and strictly above every tier before it |
| `Games.BottomIndex` | nc_lottery_million_monitor.py:87-90 | the left-to-right scan returns an index whose value is at most that of every tier, and strictly below every tier before it |
| `Games.TopPrize` | nc_lottery_million_monitor.py:82-85 | None iff the game has no tiers; otherwise the first tier of maximal value |
| `Games.BottomPrize` | nc_lottery_million_monitor.py:87-90 | None iff the game has no tiers; otherwise the first tier of minimal value |
| `Games.MillionPlusTiers` | nc_lottery_million_monitor.py:92-93 | exactly the game's tiers worth at least $1M |
| `Games.BreakEvenTiers` | nc_lottery_million_monitor.py:95-97 | exactly the tiers between 2x and 10x the ticket price, inclusive |
| `Games.SmallWinTiers` | nc_lottery_million_monitor.py:99-101 | exactly the tiers in [$500, $1,000] |
| `Games.MediumWinTiers` | nc_lottery_million_monitor.py:103-105 | exactly the tiers in [$2,000, $10,000] |
| `Seqs.Filter` | nc_lottery_million_monitor.py:92-105 | the comprehension keeps an element iff it is in the input and meets the condition, and returns no more elements than its input |
| `Seqs.FilterConcat` | nc_lottery_million_monitor.py:92-105 | filtering distributes over concatenation, so the kept elements stay in input order |
| `Games.SumTotal` | nc_lottery_million_monitor.py:120 | the summed printed count is 0 for no tier and a tier's own total for one tier; with `SumsConcat` (additivity) this determines the sum |
| `Games.SumRemaining` | nc_lottery_million_monitor.py:121 | the summed unclaimed count is 0 for no tier and a tier's own remaining count for one tier; with `SumsConcat` this determines the sum |
| `Games.SumsConcat` | nc_lottery_million_monitor.py:120-121 | both sums over a concatenation are the sums of the parts |
| `Games.GuardedPercent` | nc_lottery_million_monitor.py:122 | 0 when the total is not positive; otherwise the result times the total equals `remaining * 100`; within [0, 100] when `0 <= remaining <= total` |
| `Games.SumsBounded` | nc_lottery_million_monitor.py:120-121 | over well-formed tiers, the summed remaining count lies between 0 and the summed total |
| `Games.GroupPercent` | nc_lottery_million_monitor.py:137-159 | 0 when the group's summed total is not positive (an empty group included); otherwise the percentage of the summed counts; within [0, 100] for well-formed tiers |
| `Games.HasMillionPlus` | nc_lottery_million_monitor.py:174-175 | true iff some tier is worth at least $1M |
| `Games.MillionHealth` | nc_lottery_million_monitor.py:115-123 | the summed remaining and total counts of the million-plus tiers and their group percentage; `(0, 0, 0.0)` when there is no million-plus tier; bounded for well-formed tiers |
| `Games.Differential` | nc_lottery_million_monitor.py:107-113 | 0 without tiers; otherwise the top prize's percentage minus the bottom prize's; within [-100, 100] for well-formed tiers |
| `Games.LossMinimizationScore` | nc_lottery_million_monitor.py:125-165 | `0.5 * break-even% + 0.3 * small-win% + 0.2 * medium-win%` over the group percentages; within [0, 100] for well-formed tiers, as the doc comment promises |
| `Games.BottomDepletion` | nc_lottery_million_monitor.py:167-172 | 0 without tiers; otherwise the bottom prize's percentage; within [0, 100] for well-formed tiers |
| `Games.DifferentialExample` | nc_lottery_million_monitor.py:107-113 | tiers $1 at 10/10 and $1M at 1/5 give a differential of 20 - 100 = -80 |
| `Games.LossMinimizationExample` | nc_lottery_million_monitor.py:125-165 | a $5 game with groups at 80/100, 40/100 and 10/50 scores 56 |
| `Scoring.DiffNormalized` | nc_lottery_million_monitor.py:468-469 | always within [0, 100]; 0 at or below a differential of -30; 100 at or above +30; the affine map `(d + 30) * 100 / 60` in between |
| `Scoring.Freshness` | nc_lottery_million_monitor.py:471-483 | one of 25, 50, 75 or 100; 100 iff the age is under 30 days; 25 iff it is 180 days or more; 50 iff the age is unknown or 90 to 179 days |
| `Scoring.FreshnessNonIncreasing` | nc_lottery_million_monitor.py:471-481 | an older game is never fresher |
| `Scoring.WeightedScore` | nc_lottery_million_monitor.py:485-490 | the weights sum to 1: sub-scores in [0, 100] give a score in [0, 100], and four equal sub-scores give that value |
| `Scoring.WeightedScoreMonotone` | nc_lottery_million_monitor.py:485-490 | the weighted blend is non-decreasing in million health and in freshness when the other inputs are fixed |
| `Scoring.CompositeScore` | nc_lottery_million_monitor.py:453-492 | the 0.40/0.30/0.20/0.10 blend of million health, loss minimisation, normalised differential and freshness; within [2.5, 100] for well-formed tiers |
| `Scoring.CompositeScoreMonotone` | nc_lottery_million_monitor.py:453-492 | for one game, a younger age never lowers the score, and neither does a higher million-health percentage with the other sub-scores fixed |
| `Scoring.Label` | nc_lottery_million_monitor.py:495-518 | each category prints as its own one of "HOT", "WATCH" and "AVOID": the label is "HOT" iff the category is Hot, and likewise for the other two |
| `Scoring.Categorize` | nc_lottery_million_monitor.py:501-518 | either HOT rule forces HOT; WATCH only for million% of at least 30 within [bottom% - 15, bottom% + 10]; AVOID only when million% is below 30 or below bottom% - 15 |
| `Scoring.CategorizeGame` | nc_lottery_million_monitor.py:495-518 | a game with well-formed tiers and no million-plus tier is AVOID |
| `Scoring.CategorizeCharacterized` | nc_lottery_million_monitor.py:495-518 | the first-match rule chain, in closed form: HOT iff (million% >= 70 and diff > 0) or million% > bottom% + 10; AVOID iff not HOT and (million% < 30 or million% < bottom% - 15); WATCH otherwise |
| `Scoring.CategorizeMonotone` | nc_lottery_million_monitor.py:501-515 | raising million health never takes a game out of HOT; lowering it never takes a game out of AVOID |
| `Scoring.RuleTwoExample` | nc_lottery_million_monitor.py:501-507 | million 75, differential -5 and bottom 50 fail rule 1 but are HOT by rule 2 |
| `Scoring.BoundaryIsWatch` | nc_lottery_million_monitor.py:509-518 | million 57 against bottom 72 fails both AVOID rules, since 57 < 72 - 15 is false, and is WATCH whatever the differential |
| `Scoring.EmptyGameIsAvoid` | nc_lottery_million_monitor.py:82-175 | a game with no tiers has zero million health, loss score, differential and depletion, is AVOID, and scores `10 + freshness / 10` |
| `Ranking.PricedGames` | nc_lottery_million_monitor.py:428-431 | exactly the games whose ticket price is positive |
| `Ranking.MillionPlusGames` | nc_lottery_million_monitor.py:435-438 | exactly the games with a tier worth at least $1M |
| `Ranking.ScoreAll` | nc_lottery_million_monitor.py:528 | one triple per game, in order, holding the game, its composite score for its age, and its category |
| `Ranking.ByCategory` | nc_lottery_million_monitor.py:532-534 | exactly the entries of one category |
| `Ranking.ByCategoryMatchesLabel` | nc_lottery_million_monitor.py:532-534 | keeping one category equals keeping the entries whose printed label is that category's, as the report compares strings |
| `Ranking.Insert` | nc_lottery_million_monitor.py:529 | inserting makes the list one longer |
| `Ranking.InsertMultiset` | nc_lottery_million_monitor.py:529 | inserting adds exactly `x` to the multiset of elements |
| `Ranking.InsertSorted` | nc_lottery_million_monitor.py:529 | inserting into a score-sorted list keeps it sorted |
| `Ranking.InsertAt` | nc_lottery_million_monitor.py:529 | `x` lands after every element that outscores it and before the first that does not, so it goes ahead of equal scores already placed |
| `Ranking.SortByScore` | nc_lottery_million_monitor.py:529 | the sort keeps the length; `SortPermutes`, `SortSorts` and `SortStable` give the rest |
| `Ranking.SortPermutes` | nc_lottery_million_monitor.py:529 | the sorted list is a permutation of its input |
| `Ranking.SortSorts` | nc_lottery_million_monitor.py:529 | the sorted list is non-increasing in score |
| `Ranking.SortStable` | nc_lottery_million_monitor.py:529 | for every score, the entries with that score come out in their input order |
| `Ranking.StableSortIsUnique` | nc_lottery_million_monitor.py:529 | any score-sorted list that keeps each score's entries in input order equals `SortByScore`, so it agrees with Python's stable `list.sort(reverse=True)` |
| `Ranking.SortIdempotent` | nc_lottery_million_monitor.py:529 | sorting an already-sorted list leaves it unchanged |
| `Ranking.SortFilterCommute` | nc_lottery_million_monitor.py:529-534 | keeping one category of the sorted list gives the sorted list of that category, in stable order |
| `Ranking.CategoriesPartition` | nc_lottery_million_monitor.py:532-534 | the HOT, WATCH and AVOID lists together hold every entry exactly once |
| `Ranking.InsertInPlace` | nc_lottery_million_monitor.py:529 | one insertion step on the array: the prefix is unchanged, and the suffix becomes the element inserted before the first entry it is not outscored by |
| `Ranking.SortByScoreInPlace` | nc_lottery_million_monitor.py:529 | the in-place sort leaves the array equal to `SortByScore` of its old contents |
| `Ranking.RankGames` | nc_lottery_million_monitor.py:528-534 | the ranked list is the stable descending sort of the scored games: a sorted permutation that keeps each score's input order. Each category list is that category's entries in ranked order, equal to the stable sort of the category's scored games, and the three lists partition the ranking. Each list also equals the ranked entries whose printed label is "HOT", "WATCH" or "AVOID" |

## Left out

- HTTP fetching, retries and the delays between requests (`fetch_page`, `requests.Session`, `time.sleep`) are network I/O.
- HTML scraping (`get_games_in_claims_period`, `get_game_details_from_page`, `parse_game_section`, `scrape_all_games`) is markup parsing. Only its price filter is modelled, as `Ranking.PricedGames`. The scrape loop appends each game as it goes; the model filters the finished list, which keeps the same games in the same order.
- `parse_prize_value` and `parse_number` are wrappers around Python's `float()` and `int()`, whose syntax lives in the library. Tiers arrive with their numbers already parsed.
- `days_since_launch` and `get_eastern_time` read the clock and parse dates with `strptime`. The age is an `Option<int>` input: a parameter of `Scoring.CompositeScore`, and a function `age` given to `Ranking.RankGames`.
- The HTML report (markup, CSS, colour thresholds, `format_currency`), the console summary, the second sort in `main` (the same sort as the ranking's) and the write of `index.html` are presentation and I/O.
- The non-zero exit when no game has a million-plus tier is process control. `Ranking.MillionPlusGames` models the filter that decides it.
- IEEE-754 rounding: all arithmetic is exact over `real`, `100/60` included. Results can differ from the program's floats in the last bits, and such a difference can flip a decision. A threshold comparison in the rule chain can come out the other way: with 57 of 100 million-plus tickets and 72 of 100 bottom-tier tickets left, the program's doubles give 56.99999999999999 < 72.0 - 15 and print AVOID, while the model compares 57 < 57 exactly and gives WATCH (`Scoring.BoundaryIsWatch`). The order of near-equal scores in the sort can differ in the same way.
- Python's `list.sort` is Timsort. The model sorts by insertion instead. `Ranking.StableSortIsUnique` shows that every stable descending sort gives the same list.
- Ranking.ByCategory: the category lists hold the whole `(game, score, category)` triple, whereas the source's lists drop the category and keep `(game, score)` pairs.
- Categories are the datatype `Scoring.Category` rather than strings. `Scoring.Label` gives the strings the source compares against.
