/** Ranking: score every game, sort by score (highest first, stable), and
    split the sorted list into the HOT, WATCH and AVOID sections. */
module Ranking {
  import opened Wrappers
  import opened Seqs
  import opened PrizeTiers
  import opened Games
  import opened Scoring

  /** The `(game, score, category)` triple the report sorts. */
  datatype ScoredGame = ScoredGame(game: GameData, score: real, category: Category)

  // ---------------------------------------------------------------------
  // The games that reach the ranking

  /** Games whose ticket price could be resolved (> 0). */
  function PricedGames(games: seq<GameData>): (r: seq<GameData>)
    ensures forall g :: g in r <==> g in games && g.ticketPrice > 0.0
  {
    Filter(games, (g: GameData) => g.ticketPrice > 0.0)
  }

  /** Games with at least one tier worth $1M or more. */
  function MillionPlusGames(games: seq<GameData>): (r: seq<GameData>)
    ensures forall g :: g in r <==>
              (g in games && exists i :: 0 <= i < |g.prizeTiers| && IsMillionPlus(g.prizeTiers[i]))
  {
    Filter(games, HasMillionPlus)
  }

  /** Each game paired with its composite score and category; `age` stands
      for the clock-dependent days-since-launch of each game. */
  function ScoreAll(games: seq<GameData>, age: GameData -> Option<int>): (r: seq<ScoredGame>)
    ensures |r| == |games|
    ensures forall i :: 0 <= i < |r| ==>
              r[i].game == games[i] && r[i].score == CompositeScore(games[i], age(games[i])) &&
              r[i].category == CategorizeGame(games[i])
  {
    seq(|games|, i requires 0 <= i < |games| =>
      ScoredGame(games[i], CompositeScore(games[i], age(games[i])), CategorizeGame(games[i])))
  }

  // ---------------------------------------------------------------------
  // The specification of the sort

  predicate SortedByScore(s: seq<ScoredGame>) {
    forall i, j :: 0 <= i < j < |s| ==> s[i].score >= s[j].score
  }

  /** Puts `x` in front of the first element that does not outscore it. */
  function Insert(x: ScoredGame, s: seq<ScoredGame>): (r: seq<ScoredGame>)
    ensures |r| == |s| + 1
  {
    if |s| == 0 || x.score >= s[0].score then [x] + s else [s[0]] + Insert(x, s[1..])
  }

  /** Descending sort by score in which equal scores keep their input order. */
  function SortByScore(s: seq<ScoredGame>): (r: seq<ScoredGame>)
    ensures |r| == |s|
  {
    if |s| == 0 then [] else Insert(s[0], SortByScore(s[1..]))
  }

  function ScoreIs(v: real): ScoredGame -> bool {
    (x: ScoredGame) => x.score == v
  }

  function InCategory(c: Category): ScoredGame -> bool {
    (x: ScoredGame) => x.category == c
  }

  /** Selects the entries whose category prints as `l`. */
  function HasLabel(l: string): ScoredGame -> bool {
    (x: ScoredGame) => Label(x.category) == l
  }

  /** The entries of one category, in the order of `s`. */
  function ByCategory(s: seq<ScoredGame>, c: Category): (r: seq<ScoredGame>)
    ensures forall x :: x in r <==> x in s && x.category == c
  {
    Filter(s, InCategory(c))
  }

  /** Splitting by category is the same as splitting by the printed label,
      because no two categories share a label. */
  lemma {:induction false} ByCategoryMatchesLabel(s: seq<ScoredGame>, c: Category)
    ensures ByCategory(s, c) == Filter(s, HasLabel(Label(c)))
  {
    if |s| > 0 {
      ByCategoryMatchesLabel(s[1..], c);
      assert InCategory(c)(s[0]) == HasLabel(Label(c))(s[0]);
    }
  }

  // ---------------------------------------------------------------------
  // Properties of the sort

  lemma {:induction false} InsertMultiset(x: ScoredGame, s: seq<ScoredGame>)
    ensures multiset(Insert(x, s)) == multiset(s) + multiset{x}
  {
    if |s| > 0 && x.score < s[0].score {
      InsertMultiset(x, s[1..]);
      MultisetHead(s);
    }
  }

  lemma MultisetHead(s: seq<ScoredGame>)
    requires |s| > 0
    ensures multiset(s) == multiset{s[0]} + multiset(s[1..])
  {
    assert s == [s[0]] + s[1..];
  }

  lemma {:induction false} SortPermutes(s: seq<ScoredGame>)
    ensures multiset(SortByScore(s)) == multiset(s)
  {
    if |s| > 0 {
      SortPermutes(s[1..]);
      InsertMultiset(s[0], SortByScore(s[1..]));
      MultisetHead(s);
    }
  }

  /** A bound on every score survives inserting an element within it. */
  lemma {:induction false} InsertBounded(x: ScoredGame, s: seq<ScoredGame>, b: real)
    requires x.score <= b
    requires forall i :: 0 <= i < |s| ==> s[i].score <= b
    ensures forall i :: 0 <= i < |Insert(x, s)| ==> Insert(x, s)[i].score <= b
  {
    if |s| > 0 && x.score < s[0].score {
      InsertBounded(x, s[1..], b);
    }
  }

  lemma {:induction false} InsertSorted(x: ScoredGame, s: seq<ScoredGame>)
    requires SortedByScore(s)
    ensures SortedByScore(Insert(x, s))
  {
    if |s| > 0 && x.score < s[0].score {
      var rest := Insert(x, s[1..]);
      InsertSorted(x, s[1..]);
      InsertBounded(x, s[1..], s[0].score);
      var r := [s[0]] + rest;
      forall i, j | 0 <= i < j < |r| ensures r[i].score >= r[j].score {
        if i == 0 {
          assert r[j] == rest[j - 1];
        } else {
          assert r[i] == rest[i - 1] && r[j] == rest[j - 1];
        }
      }
    }
  }

  lemma {:induction false} SortSorts(s: seq<ScoredGame>)
    ensures SortedByScore(SortByScore(s))
  {
    if |s| > 0 {
      SortSorts(s[1..]);
      InsertSorted(s[0], SortByScore(s[1..]));
    }
  }

  /** Inserting into a sorted list and then taking a sub-list is the same as
      inserting into the sub-list (when `x` belongs to it). */
  lemma {:induction false} FilterInsert(x: ScoredGame, s: seq<ScoredGame>, p: ScoredGame -> bool)
    requires SortedByScore(s)
    ensures Filter(Insert(x, s), p) == if p(x) then Insert(x, Filter(s, p)) else Filter(s, p)
  {
    if |s| == 0 || x.score >= s[0].score {
      FilterInsertFront(x, s, p);
    } else {
      SortedTail(s);
      FilterInsert(x, s[1..], p);
      FilterInsertBehind(x, s, p);
    }
  }

  /** The case where `x` goes in front. */
  lemma FilterInsertFront(x: ScoredGame, s: seq<ScoredGame>, p: ScoredGame -> bool)
    requires SortedByScore(s)
    requires |s| == 0 || x.score >= s[0].score
    ensures Filter(Insert(x, s), p) == if p(x) then Insert(x, Filter(s, p)) else Filter(s, p)
  {
    assert Insert(x, s) == [x] + s;
    FilterCons(x, s, p);
    var f := Filter(s, p);
    if p(x) && |f| > 0 {
      assert f[0] in s;
      var k :| 0 <= k < |s| && s[k] == f[0];
      assert k == 0 || s[0].score >= s[k].score;
      assert Insert(x, f) == [x] + f;
    }
  }

  /** The case where `x` goes behind the head, given the result for the tail. */
  lemma FilterInsertBehind(x: ScoredGame, s: seq<ScoredGame>, p: ScoredGame -> bool)
    requires |s| > 0 && x.score < s[0].score
    requires Filter(Insert(x, s[1..]), p) ==
             if p(x) then Insert(x, Filter(s[1..], p)) else Filter(s[1..], p)
    ensures Filter(Insert(x, s), p) == if p(x) then Insert(x, Filter(s, p)) else Filter(s, p)
  {
    var rest := Insert(x, s[1..]);
    var f := Filter(s[1..], p);
    assert Insert(x, s) == [s[0]] + rest;
    FilterCons(s[0], rest, p);
    assert Filter(s, p) == if p(s[0]) then [s[0]] + f else f;
    if p(s[0]) && p(x) {
      assert ([s[0]] + f)[0] == s[0] && ([s[0]] + f)[1..] == f;
    }
  }

  lemma SortedTail(s: seq<ScoredGame>)
    requires |s| > 0 && SortedByScore(s)
    ensures SortedByScore(s[1..])
  {
    forall i, j | 0 <= i < j < |s[1..]| ensures s[1..][i].score >= s[1..][j].score {
      assert s[1..][i] == s[i + 1] && s[1..][j] == s[j + 1];
    }
  }

  /** Sorting commutes with taking a sub-list: sorting a list and then keeping
      the entries that satisfy `p` gives the sorted list of those entries. */
  lemma {:induction false} SortFilterCommute(s: seq<ScoredGame>, p: ScoredGame -> bool)
    ensures Filter(SortByScore(s), p) == SortByScore(Filter(s, p))
  {
    if |s| > 0 {
      SortFilterCommute(s[1..], p);
      SortSorts(s[1..]);
      FilterInsert(s[0], SortByScore(s[1..]), p);
      assert s == [s[0]] + s[1..];
      FilterCons(s[0], s[1..], p);
      var f := Filter(s[1..], p);
      if p(s[0]) {
        assert ([s[0]] + f)[0] == s[0] && ([s[0]] + f)[1..] == f;
      }
    }
  }

  /** A sorted list is left as it is. */
  lemma {:induction false} SortKeepsSorted(s: seq<ScoredGame>)
    requires SortedByScore(s)
    ensures SortByScore(s) == s
  {
    if |s| > 0 {
      SortedTail(s);
      SortKeepsSorted(s[1..]);
      assert s == [s[0]] + s[1..];
    }
  }

  /** Sorting twice is sorting once. */
  lemma SortIdempotent(s: seq<ScoredGame>)
    ensures SortByScore(SortByScore(s)) == SortByScore(s)
  {
    SortSorts(s);
    SortKeepsSorted(SortByScore(s));
  }

  /** Stability: the entries of any one score come out in their input order. */
  lemma SortStable(s: seq<ScoredGame>, v: real)
    ensures Filter(SortByScore(s), ScoreIs(v)) == Filter(s, ScoreIs(v))
  {
    SortFilterCommute(s, ScoreIs(v));
    var f := Filter(s, ScoreIs(v));
    assert forall i :: 0 <= i < |f| ==> f[i].score == v;
    SortKeepsSorted(f);
  }

  /** Two score-sorted lists that list every score's entries in the same
      order are the same list. */
  lemma {:induction false} SortedClassesDetermine(r: seq<ScoredGame>, t: seq<ScoredGame>)
    requires SortedByScore(r) && SortedByScore(t)
    requires forall v :: Filter(r, ScoreIs(v)) == Filter(t, ScoreIs(v))
    ensures r == t
    decreases |r|
  {
    assert |r| > 0 ==> r[0] in Filter(t, ScoreIs(r[0].score));
    assert |t| > 0 ==> t[0] in Filter(r, ScoreIs(t[0].score));
    if |r| > 0 {
      var a, b := r[0], t[0];
      assert r == [a] + r[1..] && t == [b] + t[1..];
      assert a in Filter(t, ScoreIs(a.score));
      var ka :| 0 <= ka < |t| && t[ka] == a;
      assert ka == 0 || b.score >= a.score;
      assert b in Filter(r, ScoreIs(b.score));
      var kb :| 0 <= kb < |r| && r[kb] == b;
      assert kb == 0 || a.score >= b.score;
      var v := a.score;
      FilterCons(a, r[1..], ScoreIs(v));
      FilterCons(b, t[1..], ScoreIs(v));
      assert Filter(r, ScoreIs(v))[0] == a && Filter(t, ScoreIs(v))[0] == b;
      forall w ensures Filter(r[1..], ScoreIs(w)) == Filter(t[1..], ScoreIs(w)) {
        FilterCons(a, r[1..], ScoreIs(w));
        FilterCons(b, t[1..], ScoreIs(w));
        if w == v {
          assert Filter(r, ScoreIs(w))[1..] == Filter(r[1..], ScoreIs(w));
          assert Filter(t, ScoreIs(w))[1..] == Filter(t[1..], ScoreIs(w));
        }
      }
      SortedTail(r);
      SortedTail(t);
      SortedClassesDetermine(r[1..], t[1..]);
    }
  }

  /** `SortByScore` is the only stable descending sort: any score-sorted
      list that keeps every score's entries in input order is equal to it,
      so it agrees with any stable sort routine, Python's `list.sort` included. */
  lemma StableSortIsUnique(s: seq<ScoredGame>, r: seq<ScoredGame>)
    requires SortedByScore(r)
    requires forall v :: Filter(r, ScoreIs(v)) == Filter(s, ScoreIs(v))
    ensures r == SortByScore(s)
  {
    SortSorts(s);
    forall v ensures Filter(r, ScoreIs(v)) == Filter(SortByScore(s), ScoreIs(v)) {
      SortStable(s, v);
    }
    SortedClassesDetermine(r, SortByScore(s));
  }

  /** Every entry lies in exactly one of the three category lists. */
  lemma {:induction false} CategoriesPartition(s: seq<ScoredGame>)
    ensures multiset(ByCategory(s, Hot)) + multiset(ByCategory(s, Watch)) + multiset(ByCategory(s, Avoid))
            == multiset(s)
  {
    if |s| > 0 {
      CategoriesPartition(s[1..]);
      MultisetHead(s);
      ByCategoryHead(s, Hot);
      ByCategoryHead(s, Watch);
      ByCategoryHead(s, Avoid);
    }
  }

  lemma ByCategoryHead(s: seq<ScoredGame>, c: Category)
    requires |s| > 0
    ensures multiset(ByCategory(s, c)) ==
            (if s[0].category == c then multiset{s[0]} else multiset{}) + multiset(ByCategory(s[1..], c))
  {
  }

  // ---------------------------------------------------------------------
  // The in-place sort and the ranking step

  /** `Insert` lays `x` between the elements that outscore it and the rest. */
  lemma {:induction false} InsertAt(x: ScoredGame, s: seq<ScoredGame>, k: nat)
    requires k <= |s|
    requires forall m :: 0 <= m < k ==> s[m].score > x.score
    requires k == |s| || s[k].score <= x.score
    ensures Insert(x, s) == s[..k] + [x] + s[k..]
  {
    if k > 0 {
      InsertAt(x, s[1..], k - 1);
      assert s[..k] == [s[0]] + s[1..][..k - 1];
      assert s[k..] == s[1..][k - 1..];
    }
  }

  /** Moves `a[i]` rightwards past the elements that outscore it. */
  method InsertInPlace(a: array<ScoredGame>, i: nat)
    requires i < a.Length
    modifies a
    ensures a[..i] == old(a[..i])
    ensures a[i..] == Insert(old(a[i]), old(a[i + 1..]))
  {
    ghost var rest := a[i + 1..];
    ghost var prefix := a[..i];
    var x := a[i];
    var n := a.Length;
    var j := i;
    while j + 1 < n && a[j + 1].score > x.score
      invariant i <= j < n
      invariant forall m :: 0 <= m < i ==> a[m] == prefix[m]
      invariant forall m :: i <= m < j ==> a[m] == rest[m - i]
      invariant forall m :: j < m < n ==> a[m] == rest[m - i - 1]
      invariant forall m :: 0 <= m < j - i ==> rest[m].score > x.score
    {
      a[j] := a[j + 1];
      j := j + 1;
    }
    a[j] := x;
    assert a[..i] == prefix;
    InsertAt(x, rest, j - i);
    ShiftInsert(a[i..], rest, x, j - i);
  }

  /** A list that agrees with `rest` before `k`, holds `x` at `k` and agrees
      with `rest` shifted by one after it is `rest` with `x` put at `k`. */
  lemma ShiftInsert(b: seq<ScoredGame>, rest: seq<ScoredGame>, x: ScoredGame, k: nat)
    requires k <= |rest| && |b| == |rest| + 1
    requires forall m :: 0 <= m < k ==> b[m] == rest[m]
    requires b[k] == x
    requires forall m :: k < m < |b| ==> b[m] == rest[m - 1]
    ensures b == rest[..k] + [x] + rest[k..]
  {
  }

  /** Insertion sort in place, from the back: after each outer step the
      suffix `a[i..]` is the sorted suffix of the input. */
  method SortByScoreInPlace(a: array<ScoredGame>)
    modifies a
    ensures a[..] == SortByScore(old(a[..]))
  {
    ghost var input := a[..];
    var i := a.Length;
    while i > 0
      invariant 0 <= i <= a.Length
      invariant a[..i] == input[..i]
      invariant a[i..] == SortByScore(input[i..])
    {
      i := i - 1;
      assert a[i] == input[i];
      InsertInPlace(a, i);
      assert input[i..][0] == input[i] && input[i..][1..] == input[i + 1..];
      assert a[..i] == input[..i];
    }
  }

  /** The ranking step of the report: score, sort highest first (stable),
      then keep each category's entries in ranked order. */
  method RankGames(games: seq<GameData>, age: GameData -> Option<int>)
    returns (ranked: seq<ScoredGame>, hot: seq<ScoredGame>, watch: seq<ScoredGame>, avoid: seq<ScoredGame>)
    ensures ranked == SortByScore(ScoreAll(games, age))
    ensures multiset(ranked) == multiset(ScoreAll(games, age))
    ensures SortedByScore(ranked)
    ensures forall v :: Filter(ranked, ScoreIs(v)) == Filter(ScoreAll(games, age), ScoreIs(v))
    ensures hot == ByCategory(ranked, Hot) && watch == ByCategory(ranked, Watch) && avoid == ByCategory(ranked, Avoid)
    ensures hot == Filter(ranked, HasLabel("HOT")) && watch == Filter(ranked, HasLabel("WATCH")) &&
            avoid == Filter(ranked, HasLabel("AVOID"))
    ensures hot == SortByScore(ByCategory(ScoreAll(games, age), Hot))
    ensures watch == SortByScore(ByCategory(ScoreAll(games, age), Watch))
    ensures avoid == SortByScore(ByCategory(ScoreAll(games, age), Avoid))
    ensures multiset(hot) + multiset(watch) + multiset(avoid) == multiset(ranked)
  {
    var scored := ScoreAll(games, age);
    var a := new ScoredGame[|scored|](i requires 0 <= i < |scored| => scored[i]);
    assert a[..] == scored;
    SortByScoreInPlace(a);
    ranked := a[..];
    hot := ByCategory(ranked, Hot);
    watch := ByCategory(ranked, Watch);
    avoid := ByCategory(ranked, Avoid);
    SortPermutes(scored);
    SortSorts(scored);
    forall v ensures Filter(ranked, ScoreIs(v)) == Filter(scored, ScoreIs(v)) {
      SortStable(scored, v);
    }
    SortFilterCommute(scored, InCategory(Hot));
    SortFilterCommute(scored, InCategory(Watch));
    SortFilterCommute(scored, InCategory(Avoid));
    CategoriesPartition(ranked);
    ByCategoryMatchesLabel(ranked, Hot);
    ByCategoryMatchesLabel(ranked, Watch);
    ByCategoryMatchesLabel(ranked, Avoid);
  }
}
