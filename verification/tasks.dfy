/** The helpers of nbaelo/tasks.py that the daily job runs around the
    simulator: the season a date belongs to, the cutoff that clears the
    scores of games from a given day on, and the per-team record of the
    three probabilities the simulator reports. */
module Tasks {
  import opened Wrappers
  import opened Ratings
  import opened Games
  import opened Schedule

  // ---------------------------------------------------------------------
  // get_season_year_from_date

  /** A calendar month. */
  type Month = m: int | 1 <= m <= 12 witness 1

  /** `get_season_year_from_date`: the season of a date in `year` and
      `month`. The schedule runs from October to June, so a date in July,
      August or September fails the assertion; a season is named after the
      year in which it ends. */
  function SeasonYear(year: int, month: Month): (r: Result<int>)
  {
    if month in {7, 8, 9} then Err(AssertionError)
    else if month > 9 then Ok(year + 1)
    else Ok(year)
  }

  /** The season named `season` is exactly the dates from October to
      December of the year before and from January to June of its own
      year; no date of the summer months has a season, and the season of
      a date is its own year or the next. */
  lemma SeasonYearMeaning(year: int, month: Month, season: int)
    ensures SeasonYear(year, month) == Ok(season) <==>
      (10 <= month && year == season - 1) || (month <= 6 && year == season)
    ensures SeasonYear(year, month).Err? <==> 7 <= month <= 9
    ensures SeasonYear(year, month).Err? ==> SeasonYear(year, month).error == AssertionError
    ensures SeasonYear(year, month).Ok? ==> SeasonYear(year, month).value in {year, year + 1}
  {
  }

  /** A later date never belongs to an earlier season. */
  lemma SeasonYearMonotone(y1: int, m1: Month, y2: int, m2: Month)
    requires y1 < y2 || (y1 == y2 && m1 <= m2)
    requires SeasonYear(y1, m1).Ok? && SeasonYear(y2, m2).Ok?
    ensures SeasonYear(y1, m1).value <= SeasonYear(y2, m2).value
  {
  }

  // ---------------------------------------------------------------------
  // uncomplete_games (tasks.py)

  /** The cutoff moved back to the midnight that starts its calendar day:
      every cutoff is a `date` (a `datetime` is one too), so it is always
      rebuilt from its year, month and day. */
  function Midnight(cutoff: int): (r: int)
    ensures r <= cutoff < r + SecondsPerDay
    ensures DayOf(r) == DayOf(cutoff)
  {
    DayOf(cutoff) * SecondsPerDay
  }

  /** A game after `uncomplete_games(games, cutoff)` of nbaelo/tasks.py:
      the scores are removed from a game at or after the cutoff's
      midnight. */
  function ClearedFrom(g: GameRec, cutoff: int): GameRec {
    if g.date >= Midnight(cutoff) then Unscored(g) else g
  }

  /** A timestamp is at or after the midnight of the cutoff's day exactly
      when its calendar day is not earlier than the cutoff's. */
  lemma MidnightDays(t: int, cutoff: int)
    ensures t >= Midnight(cutoff) <==> DayOf(t) >= DayOf(cutoff)
  {
    var D, m := SecondsPerDay, DayOf(cutoff);
    assert t == DayOf(t) * D + t % D && 0 <= t % D < D;
    if DayOf(t) >= m {
      MulMonotone(m, DayOf(t), D);
    } else {
      MulMonotone(DayOf(t) + 1, m, D);
    }
  }

  lemma MulMonotone(a: int, b: int, d: nat)
    requires a <= b
    ensures a * d <= b * d
  {
    assert b * d - a * d == (b - a) * d;
  }

  /** Clearing removes both scores from every game on the cutoff's
      calendar day or later, even earlier on that day than the cutoff,
      keeps every game of an earlier day as it was, never changes teams
      or dates, and a second clearing at the same cutoff changes nothing. */
  lemma ClearedFromMeaning(g: GameRec, cutoff: int)
    ensures var r := ClearedFrom(g, cutoff);
      r.home == g.home && r.away == g.away && r.date == g.date && r.isSimulated == g.isSimulated &&
      (DayOf(g.date) >= DayOf(cutoff) ==> r.homePoints.None? && r.awayPoints.None?) &&
      (DayOf(g.date) < DayOf(cutoff) ==> r == g) &&
      (g.date >= cutoff ==> !IsGameComplete(r)) &&
      ClearedFrom(r, cutoff) == r
  {
    MidnightDays(g.date, cutoff);
  }

  /** The same clearing as the `uncomplete_games` of nbaelo/elo.py, whose
      cutoff is exclusive and never truncated, taken one second before the
      cutoff's midnight. */
  lemma ClearedFromAsAfter(g: GameRec, cutoff: int)
    ensures ClearedFrom(g, cutoff) == ClearedAfter(g, Midnight(cutoff) - 1)
  {
  }

  /** `uncomplete_games(games, cutoff)` of nbaelo/tasks.py: every game on
      or after the cutoff's day loses both scores, in place; a game object
      listed twice is cleared once, and clearing it again changes nothing. */
  method UncompleteGamesFrom(games: seq<Game>, cutoff: int)
    modifies games
    ensures forall i :: 0 <= i < |games| ==> games[i].Rec() == ClearedFrom(old(games[i].Rec()), cutoff)
  {
    var midnight := Midnight(cutoff);
    for i := 0 to |games|
      invariant forall j :: 0 <= j < |games| && games[j] in games[..i] ==>
        games[j].Rec() == ClearedFrom(old(games[j].Rec()), cutoff)
      invariant forall j :: 0 <= j < |games| && games[j] !in games[..i] ==>
        games[j].Rec() == old(games[j].Rec())
    {
      var g := games[i];
      if g.date >= midnight {
        g.homePoints := None;
        g.awayPoints := None;
      }
      assert games[..i + 1] == games[..i] + [g];
    }
    assert games[..|games|] == games;
  }

  // ---------------------------------------------------------------------
  // The per-team record of generate_daily_probabilities

  /** The three probabilities stored for a team and a day. */
  datatype Probabilities = Probabilities(playoff: real, topSeed: real, champion: real)

  /** The loop that merges the simulator's three maps: one record per key
      of the playoff map, holding that team's value from each map. A key
      missing from the top-seed or the championship map raises KeyError. */
  method Assemble(playoff: map<string, real>, topSeed: map<string, real>, champion: map<string, real>)
    returns (r: Result<map<string, Probabilities>>)
    ensures r.Ok? <==> forall t :: t in playoff ==> t in topSeed && t in champion
    ensures r.Err? ==> r.error == KeyError
    ensures r.Ok? ==> r.value.Keys == playoff.Keys
    ensures r.Ok? ==> forall t :: t in r.value ==>
      r.value[t] == Probabilities(playoff[t], topSeed[t], champion[t])
  {
    var data: map<string, Probabilities> := map[];
    var rest := playoff.Keys;
    while rest != {}
      invariant rest <= playoff.Keys
      invariant data.Keys == playoff.Keys - rest
      invariant forall t :: t in data ==> t in topSeed && t in champion
      invariant forall t :: t in data ==> data[t] == Probabilities(playoff[t], topSeed[t], champion[t])
      decreases rest
    {
      var t :| t in rest;
      if t !in topSeed || t !in champion {
        return Err(KeyError);
      }
      data := data[t := Probabilities(playoff[t], topSeed[t], champion[t])];
      rest := rest - {t};
    }
    r := Ok(data);
  }
}
