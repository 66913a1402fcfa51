# nbaelo in Dafny

nbaelo rates NBA teams with the Elo system and forecasts a season from it.
The engine replays the games already played to update every team's rating.
It then simulates the remaining games and the playoffs many times, and reports
for every team the share of simulated seasons in which it reaches the
playoffs, takes the top seed of its conference and wins the championship.
Around the engine sit a daily job, a scraper for basketball-reference.com
and two caching decorators.

This project models that core and proves properties of the model:

- `formula.dfy` (`EloFormula`): the Elo update of `Season.update_ratings`.
  The win expectancy and the margin factor are floating-point formulas; here
  they are left abstract as an `Engine`.
- `ratings.dfy` (`Ratings`): `Team`, a class whose rating-change dictionary
  is an insertion-ordered list of (date, change) pairs with unique dates.
  It covers `update_rating`, `change_past_games`, `current_rating` and
  `rating_history`.
- `games.dfy` (`Games`): `Game`, a class with its `simulate`, `winner`,
  `loser` and `from_list_of_games`, and the module-level `is_game_complete`.
- `league.dfy` (`League`): what `update_ratings` and `play_through_season`
  do to the teams, as values. This is where records, the zero-sum property
  of rating changes and the dates of changes are proved.
- `season.dfy` (`Seasons`) and `standings.dfy` (`Standings`): `Season`,
  whose methods update team and game objects in place, and its standings.
  `sorting.dfy` (`Sorting`) is the stable sort of Python's `sorted`.
- `playoffs.dfy` (`Playoffs`): `PlayoffRound.simulate_winner` and
  `PlayoffSimulator`.
- `shares.dfy` (`Tallies`) and `simulator.dfy` (`Simulation`): `Simulator`,
  its trials and its three probability getters.
- `schedule.dfy` (`Schedule`): the module-level helpers of `elo.py`.
  These are `uncomplete_games`, `map_teams_to_their_games`,
  `create_conferences`, `get_point_differentials` and
  `Team.generate_teams_from_season_of_games`.
- `tasks.dfy` (`Tasks`): `get_season_year_from_date`, the `uncomplete_games`
  of `tasks.py`, and the loop that merges the three probability maps.
- `scrape.dfy` (`Scrape`): `parse_url` and the URL `fetch_schedule`
  requests.
- `memo.dfy` (`Memo`): the `Memoized` and `MemoizedTtl` decorators.
- `wrappers.dfy` (`Wrappers`): `Option`, and a `Result` whose errors name
  the Python exception raised.

Modelling conventions:

- Timestamps are integer seconds. The calendar day of a timestamp is its floor
  division by 86400, which is what `.date()` gives.
- Every call to `random.random()` reads the next value of an injected stream
  `draws: nat -> real`. Each method that draws takes a start position and
  returns the position after its last draw.
- Python exceptions are `Err` values naming the exception: `KeyError`,
  `TypeError`, `ValueError`, `IndexError`, `AssertionError`,
  `ZeroDivisionError`, `StopIteration` and `UnboundLocalError`.

Where the code behaves unexpectedly, the model follows the code:

- `update_rating` overwrites the change stored for a date.
- `simulate_remaining` simulates every open game with the ratings at the
  start, because it never updates ratings.
- `play_through_season(stop_date)` skips games dated *before* the stop date.
- All trials of `Simulator` share the same `Team` objects, so each trial
  replays the season on the ratings the previous one left
  (`Simulation.TrialsRecords`).
- A playoff series goes on until *both* sides have four wins, so a 4-4
  series goes to the second team (`Playoffs.FourFourGoesToTeam2`).
- `is_game_complete` tests for either score where `Game.is_complete` tests
  for both (`Games.IsGameCompleteDiffers`).
- `uncomplete_games` in `tasks.py` truncates every cutoff to midnight,
  because a `datetime` is also a `date`.

## Model

| member | source | states |
|---|---|---|
| EloFormula.WinnerGains | nbaelo/elo.py:251-261 | With a win expectancy strictly between 0 and 1, a positive margin factor and a positive k, the home team's change is positive exactly when it scored more. It is negative exactly when it did not. |
| Games.IsGameCompleteDiffers | nbaelo/elo.py:77-78 | `is_game_complete` agrees with `Game.is_complete` exactly when both scores are present or both absent. A complete game is always "complete" for it. |
| Games.WinnerOf | nbaelo/elo.py:206-208 | The winner is defined exactly when both scores are present; otherwise the comparison raises TypeError. The winner is one of the two teams, and it is the home team exactly when the home side scored more (or plays itself). |
| Games.LoserOf | nbaelo/elo.py:210-212 | Same error condition as the winner. Loser and winner are the two teams of the game, and they differ when the teams do. |
| Games.Simulated | nbaelo/elo.py:194-200 | A simulated game is complete and flagged simulated. It keeps its teams and date and has the placeholder scores (-1, -2) or (-2, -1). Its winner is the home team exactly when the draw favoured it. |
| Games.Game.constructor | nbaelo/elo.py:180-186 | A new game holds the given teams, date and scores and is not flagged simulated. |
| Games.Game.Simulate | nbaelo/elo.py:188-200 | A complete game raises ValueError and is left unchanged. Otherwise the home team wins exactly when the draw is below its win expectancy. |
| Games.FromListOfGames | nbaelo/elo.py:214-222 | One fresh, distinct copy per input game, with the same teams, date and scores and the simulated flag cleared. |
| Ratings.PutKeys | nbaelo/elo.py:119 | Storing a change adds its date to the keys and keeps the keys unique. |
| Ratings.PutOrder | nbaelo/elo.py:119 | Insertion order: an existing date keeps its position with the new change, and a new date is appended at the end. |
| Ratings.PutSets | nbaelo/elo.py:119 | After storing, the change recorded for the date is the new one. |
| Ratings.PutSum | nbaelo/elo.py:119 | The sum of changes moves by the new change minus the overwritten one. |
| Ratings.PutKeeps | nbaelo/elo.py:119 | The change stored for every other date is unchanged. |
| Ratings.RecordEffect | nbaelo/elo.py:118-123 | Recording a result moves the current rating by the new change minus the overwritten one. It adds exactly one game to the record, as a win exactly when the result is a win. |
| Ratings.NewestFirst | nbaelo/elo.py:127 | `reversed(sorted(items))` is a permutation of the changes, ordered by date from the newest, with the same total. |
| Ratings.HeadIsLatest | nbaelo/elo.py:127 | The first entry of the newest-first order carries the latest date. |
| Ratings.MaxDate | nbaelo/elo.py:147 | The latest recorded date is a key and no key is later. |
| Ratings.MinDate | nbaelo/elo.py:146 | The earliest recorded date is a key and no key is earlier. |
| Ratings.RecentChangeAll | nbaelo/elo.py:125-130 | Asking for at least as many games as there are recorded dates gives the whole change since the start. |
| Ratings.RecentChangeLatest | nbaelo/elo.py:125-130 | Asking for one game gives the change stored on the latest date. |
| Ratings.DayOffsetBound | nbaelo/elo.py:151 | Every recorded date falls within the `(last - first).days + 2` days starting at the first date's day. |
| Ratings.DayTotals | nbaelo/elo.py:149-156 | The first loop of `rating_history`: one total per day of the window, each the sum of the changes dated on that day. |
| Ratings.RunningRatings | nbaelo/elo.py:158-161 | The accumulation: entry i is day i of the window with the start rating plus every change up to and including that day. |
| Ratings.Team.constructor | nbaelo/elo.py:108-116 | A new team has the given symbol, start date, conference and start rating, a single zero change on its start date, and no wins or losses. |
| Ratings.Team.UpdateRating | nbaelo/elo.py:118-123 | The change for the date becomes the new one, and the rating moves by the new change minus the overwritten one. Exactly one win or one loss is added, and the team stays well formed. |
| Ratings.Team.ChangePastGames | nbaelo/elo.py:125-130 | A non-positive count fails the assertion. Otherwise the result is the sum of the changes of the `num_games` newest dates (all of them when fewer exist). |
| Ratings.Team.RatingHistory | nbaelo/elo.py:144-161 | One entry per day of the `(last - first).days + 2` days from the first recorded day. Each entry holds the start rating plus every change up to that day, and the last one equals the current rating. |
| League.ApplyChange | nbaelo/elo.py:262-263 | Recording a game keeps the roster and leaves every team not in the game untouched. |
| League.ApplyResult | nbaelo/elo.py:243-263 | `update_ratings` on values keeps the roster. Its change is the Elo formula on the two ratings read before either team is updated (ApplyResultFrame, WinnerGains). |
| League.ApplyChangeNegates | nbaelo/elo.py:260-263 | The home team records the change on the game's date and the away team records exactly its negation. |
| League.ApplyChangeRecords | nbaelo/elo.py:248-263 | A game gives one win to its winner and one loss to its loser and nothing to anyone else. The home side gains the win exactly when it scored more. |
| League.ApplyChangeElsewhere | nbaelo/elo.py:262-263 | No stored change moves except on the game's date for its two teams. |
| League.ApplyChangeTotal | nbaelo/elo.py:260-263 | One game moves the league-wide sum of changes only by the two changes it overwrites. |
| League.Replay | nbaelo/elo.py:265-273 | Replaying a schedule keeps the roster. |
| League.ApplyResultFrame | nbaelo/elo.py:253-263 | In a game between two different teams, the home team records the Elo change of the two ratings read before either team is updated, and the away team exactly its negation. Two leagues whose home and away ratings agree record the same change, and two leagues that agree on both teams agree on them afterwards. |
| League.ReplayAppend | nbaelo/elo.py:265-273 | Playing through a schedule in two pieces is playing it through whole: the second piece starts from the ratings and records the first one left. |
| League.ReplayWellFormed | nbaelo/elo.py:265-273 | A replay keeps every team's dates unique. |
| League.ReplayRecords | nbaelo/elo.py:265-273 | After a replay, each team has gained exactly the wins and losses the counted games give it. |
| League.ReplayChangesOnPlayedDates | nbaelo/elo.py:265-273 | Starting from new teams, a team has a non-zero change only on a date on which it played a counted game. |
| League.ReplayZeroSum | nbaelo/elo.py:260-273 | Starting from new teams and with no team double-booked at one timestamp, the league-wide sum of rating changes stays zero. The sum is exactly zero over the model's reals; Python floats keep it zero only up to rounding. |
| Seasons.TeamsBySymbol | nbaelo/elo.py:235 | The roster has every symbol of the list as a key, and each key maps to a team of the list with that symbol. |
| Seasons.TeamsBySymbolLast | nbaelo/elo.py:235 | A key maps to the last team of the list that has that symbol. |
| Seasons.SimulateOne | nbaelo/elo.py:276-281 | One game of `simulate_remaining`: afterwards it is complete with its teams and date, and a complete game is left as it was. |
| Seasons.DrawPositionsCount | nbaelo/elo.py:276-281 | The game at index i is reached at the start position plus the number of open games before it. |
| Seasons.DistinctDraws | nbaelo/elo.py:194 | No two open games share a random draw. |
| Seasons.SimulateOpenEffect | nbaelo/elo.py:275-281 | After simulating, every game is complete and keeps its teams and date, and every game that was complete is unchanged. |
| Seasons.DrawPositionsTotal | nbaelo/elo.py:275-281 | Simulating a season consumes exactly one draw per open game. |
| Seasons.Season.constructor | nbaelo/elo.py:233-238 | The roster is keyed by symbol, and the games are a permutation of the given ones sorted by date. |
| Seasons.Season.UpdateRatings | nbaelo/elo.py:243-263 | A team missing from the roster raises KeyError and a missing score raises TypeError; in both cases nothing changes. Otherwise the teams' state becomes `ApplyResult` of the old state with the given or default k, and the games are untouched. |
| Seasons.Season.RecordResult | nbaelo/elo.py:260-263 | The home team records the change and the away team its negation, each with its side of the result. |
| Seasons.Season.RecordFor | nbaelo/elo.py:262 | `update_rating` on one roster team changes the roster's state in that entry only. |
| Seasons.Season.PlayThroughSeason | nbaelo/elo.py:265-273 | The teams' state becomes `Replay` of the old state over the season's games with the stop date, and the games are untouched. |
| Seasons.Season.PlayGame | nbaelo/elo.py:266-273 | An open game or one before the stop date changes nothing, and any other game applies the Elo update. |
| Seasons.Season.SimulateRemaining | nbaelo/elo.py:275-281 | The ratings are unchanged, every game becomes complete, the games become `SimulateOpen` of the old games with the current ratings, and the stream advances by the number of open games. |
| Seasons.Season.SimulateAt | nbaelo/elo.py:276-281 | One step of the loop keeps the loop's state: the games before the index are simulated and the stream position has advanced. |
| Seasons.Season.SimulateGame | nbaelo/elo.py:276-281 | Only the game at the index changes, as `SimulateOne` with the teams' current ratings; the ratings are unchanged. |
| Seasons.Season.FirstDay | nbaelo/elo.py:283-285 | With no games, `min` raises ValueError. Otherwise the result is the date of some game and no game is earlier. |
| Seasons.Season.LastDay | nbaelo/elo.py:287-289 | With no games, `max` raises ValueError. Otherwise the result is the date of some game and no game is later. |
| Seasons.Season.CurrentSeasonDate | nbaelo/elo.py:292-297 | With no games the variable is unbound. Otherwise the result is the day of the first open game, or of the last game when all are complete. |
| Seasons.Season.CurrentStandings | nbaelo/elo.py:305-333 | The result is `StandingsOf` the season's games and conferences, whose properties are the Standings rows below. |
| Standings.Ensure | nbaelo/elo.py:313-316 | After opening a record, the team is listed, the other listed teams are as before, and each team stays listed once. |
| Standings.Bump | nbaelo/elo.py:319-324 | Exactly the row of the team gains one win or one loss; every other row is unchanged. |
| Standings.TallyFails | nbaelo/elo.py:318 | The standings fail, with an AssertionError, exactly when some complete game ended level. |
| Standings.TallyTeams | nbaelo/elo.py:307-316 | The records list each team once, and exactly the teams that play a complete game. |
| Standings.TallyRecords | nbaelo/elo.py:307-325 | Each team's record holds the wins and losses its complete games give it. |
| Standings.TallyTotals | nbaelo/elo.py:307-325 | The wins, and likewise the losses, add up to the number of complete games. |
| Standings.InConference | nbaelo/elo.py:327-328 | A row is kept exactly when it is a row of the records and its team is in the given conference. |
| Standings.InConferenceAppend | nbaelo/elo.py:327-328 | The filter keeps the tally's order: filtering a concatenation is concatenating the filtered pieces, so the rows of a conference come out in the order the tally lists them. With the stable sort, this order decides ties in the standings. |
| Standings.ConferenceSplit | nbaelo/elo.py:327-328 | The two conference lists together hold every row exactly as often as the records do. |
| Standings.SortStandingsOrder | nbaelo/elo.py:330-331 | `sort_standings` is a permutation of its rows ordered by (wins, losses) from the greatest down. |
| Standings.StandingsTeams | nbaelo/elo.py:327-333 | The western standings hold Western teams only and the eastern standings Eastern teams only. |
| Sorting.SortBy | nbaelo/elo.py:238 | The sort is a permutation of its input, ordered by the key. |
| Sorting.SortByStable | nbaelo/elo.py:238 | The sort is stable: for every key, the elements carrying it appear in the result in their input order. This decides ties in `reversed(sorted(...))` at lines 330-331. |
| Playoffs.SeriesEnd | nbaelo/elo.py:391-395 | The loop exits at the first position where both sides have at least four wins. |
| Playoffs.FirstStopUnique | nbaelo/elo.py:391-395 | That exit position is unique. |
| Playoffs.SeriesWinner | nbaelo/elo.py:397 | The winner is one of the two teams. |
| Playoffs.SeriesWinnerScore | nbaelo/elo.py:391-397 | Between two different teams, `team1` takes the series exactly when it has more wins at the exit, that is when `team2` stopped at four and `team1` went past it. `team2` takes it exactly when `team1` has four. |
| Playoffs.SeriesScore | nbaelo/elo.py:391-395 | At the exit both sides have at least four wins and one side has exactly four. |
| Playoffs.SimulateWinner | nbaelo/elo.py:386-397 | The series stops at the exit position, and the team with more wins there takes it. |
| Playoffs.FourFourGoesToTeam2 | nbaelo/elo.py:391-397 | A stream in which team1 wins the first four games and team2 the next four ends at 4-4 after eight games and gives the series to team2. |
| Playoffs.Series | nbaelo/elo.py:386-397 | A series on values crowns one of its two teams and uses at least eight draws. |
| Playoffs.SeriesMeaning | nbaelo/elo.py:386-397 | Under a fair stream and a win expectancy in (0, 1), every series ends, at the exit position, with the winner the loop picks. |
| Playoffs.Bracket | nbaelo/elo.py:356-363 | The bracket champion is one of the first eight seeds, after at least 56 draws. |
| Playoffs.ConferenceBracket | nbaelo/elo.py:347-363 | Fewer than eight seeds raise IndexError before any draw. Otherwise the result is the bracket 1-8, 2-7, 3-6, 4-5, then winners 1/8 against 4/5 and 2/7 against 3/6, then the final. |
| Playoffs.Playoffs | nbaelo/elo.py:369-376 | The champion is one of the first eight seeds of the West or of the East. |
| Playoffs.PlayoffsResult | nbaelo/elo.py:365-376 | IndexError exactly when either side has fewer than eight seeds; otherwise the champion is a top-eight seed of a side. The stream never moves back. |
| Playoffs.SimulatePlayoffs | nbaelo/elo.py:365-376 | The West's bracket runs first, then the East's, then the final. If only the East is short, the West's draws are already used. |
| Tallies.ZeroCounts | nbaelo/elo.py:426 | Every team symbol is a key with count zero, and there are no other keys. |
| Tallies.AddPicksMeaning | nbaelo/elo.py:429-431 | Adding picks fails, with a KeyError, exactly when a pick is not a key, and otherwise keeps the keys. |
| Tallies.AddPicksCounts | nbaelo/elo.py:429-431 | Each key gains its number of occurrences among the picks, and the total grows by the number of picks. |
| Tallies.CountAllMeaning | nbaelo/elo.py:427-431 | Counting over seasons succeeds exactly when every season has standings and every pick is a key. Each key then gains its occurrences over all seasons, and the total grows by the number of picks. |
| Tallies.Shares | nbaelo/elo.py:432 | With no seasons and some team, the division raises ZeroDivisionError. Otherwise every count is divided by the number of seasons, and the keys are kept. |
| Tallies.Top | nbaelo/elo.py:429 | `rows[:n]` gives the first min(n, length) teams in order. |
| Tallies.PlayoffCounts | nbaelo/elo.py:424-432 | When it succeeds, each team's count is its number of playoff spots and the counts add up to the spots handed out. |
| Tallies.FullSpots | nbaelo/elo.py:429 | With at least eight teams on each side, sixteen spots are handed out per season. |
| Tallies.TopSeedCounts | nbaelo/elo.py:434-442 | When it succeeds, each team's count is the number of seasons it leads a side and the counts add up to two per season. |
| Tallies.Seeds | nbaelo/elo.py:356-359 | A seed is the row's team together with that team's current rating, in standings order. |
| Tallies.ChampionSeason | nbaelo/elo.py:447-449 | One season's playoffs never move the stream back. |
| Tallies.ChampionSeasonCounts | nbaelo/elo.py:447-449 | A season that crowns a champion adds exactly one to the counts and keeps the keys. |
| Tallies.ChampionCounts | nbaelo/elo.py:444-451 | When counting succeeds, the counts add up to the number of seasons. |
| Tallies.AddEach | nbaelo/elo.py:429-431 | The loop `teams[team] += 1` computes `AddPicks`, stopping at the first KeyError. |
| Tallies.CountPlayoffPicks | nbaelo/elo.py:426-431 | The counting loop of `playoff_probabilities` equals `CountAll` over each season's top eight per side. |
| Tallies.CountTopSeedPicks | nbaelo/elo.py:436-441 | The counting loop of `top_seed_probabilities` equals `CountAll` over each season's leaders. An empty side raises IndexError. |
| Tallies.CountChampions | nbaelo/elo.py:445-449 | The counting loop of `get_championship_probabilities` equals `ChampionTally`, including the stream position reached. |
| Simulation.SeasonOfCopies | nbaelo/elo.py:409-413 | A season over the copies is well shaped and holds the cleared game records in date order. |
| Simulation.Trials | nbaelo/elo.py:416-422 | After n trials the roster is kept, there are n simulated schedules, and the stream has not moved back. |
| Simulation.TrialsDraws | nbaelo/elo.py:416-422 | Each trial uses one draw per open game of the schedule. |
| Simulation.TrialsRecords | nbaelo/elo.py:416-422 | Because the trials share team objects, after n trials each team holds n times the schedule's record on top of its own. |
| Simulation.TrialsComplete | nbaelo/elo.py:416-422 | Every trial's season ends complete, each game keeping its teams and date and every played game its score. |
| Simulation.Simulator.constructor | nbaelo/elo.py:402-407 | A new simulator holds the year, the teams, the games' records and the roster by symbol, with no simulated season. |
| Simulation.Simulator.CreateSeason | nbaelo/elo.py:409-413 | The new season is fresh, over fresh copies of the games, on the shared roster, and holds the schedule in date order. |
| Simulation.Simulator.RunTrial | nbaelo/elo.py:417-420 | The shared teams replay the schedule, and the new season's games become the schedule simulated with the replayed ratings. |
| Simulation.Simulator.Trial | nbaelo/elo.py:417-422 | One pass of the loop: the shared ratings replay the schedule, the simulated season is kept, and earlier seasons are untouched. |
| Simulation.Simulator.Keep | nbaelo/elo.py:422 | The season is appended to the simulated seasons. |
| Simulation.Simulator.SimulateManySeasons | nbaelo/elo.py:416-422 | Exactly `trials` seasons are appended and the earlier ones kept. The shared ratings and each new season's games are those of `Trials`, and the stream advances by `trials` times the open games. |
| Simulation.Simulator.AllStandings | nbaelo/elo.py:427-428 | The standings of every kept season, in order. |
| Simulation.Simulator.PlayoffProbabilities | nbaelo/elo.py:424-432 | The result is the playoff counts over the kept seasons' standings divided by the number of seasons; see PlayoffCounts and Shares. |
| Simulation.Simulator.TopSeedProbabilities | nbaelo/elo.py:434-442 | The result is the top-seed counts over the kept seasons' standings divided by the number of seasons; see TopSeedCounts and Shares. |
| Simulation.Simulator.ChampionshipProbabilities | nbaelo/elo.py:444-451 | Every standings team has a current rating. The result is the champion counts of one playoff run per kept season, divided by the number of seasons; see ChampionCounts and Shares. |
| Schedule.Unscored | nbaelo/elo.py:27-28 | Removing both scores keeps teams, date and flag and leaves the game incomplete under both completeness tests. |
| Schedule.ClearedAfterMeaning | nbaelo/elo.py:24-28 | A game strictly after the cutoff loses its scores, any other is unchanged, teams and dates never change, and clearing twice is clearing at the earlier cutoff. |
| Schedule.UncompleteGames | nbaelo/elo.py:24-28 | In place, every listed game becomes its cleared version, including a game object listed twice. |
| Schedule.TeamsInMeaning | nbaelo/elo.py:63-70 | A team is a key of the dictionary exactly when some game names it. |
| Schedule.TeamOrderMeaning | nbaelo/elo.py:61-74 | The keys in insertion order name every team of the schedule exactly once and start with the first game's home team; there are none only for no games. |
| Schedule.GamesForMeaning | nbaelo/elo.py:63-74 | A team's list holds only games that name it, holds every such game, and is empty exactly for a team that never plays. |
| Schedule.MapTeamsToGames | nbaelo/elo.py:58-74 | The keys are the teams of the schedule, in insertion order. Each team maps to its games in schedule order. |
| Schedule.AddTeams | nbaelo/elo.py:67-70 | The teams of the next game are opened when new, at the end of the key order. |
| Schedule.AddGame | nbaelo/elo.py:72-73 | The next game is appended to its home team's list, then to its away team's list. |
| Schedule.CountAppearances | nbaelo/elo.py:43-46 | Each team's count is the number of games in its list, counting a game against itself twice. |
| Schedule.ConferencesPartition | nbaelo/elo.py:48-55 | The intended split partitions the teams seen, with LAL, when seen, in the West. |
| Schedule.ConferencesAsWrittenDiffers | nbaelo/elo.py:53-55 | The misspelt swap only loses the eastern set. When the swap fires, both returned sets are the light teams. |
| Schedule.ConferencesTypoWitness | nbaelo/elo.py:53-55 | On one game LAL-BOS, the code as written puts both teams in both conferences, where the intended split gives ({LAL, BOS}, {}). |
| Schedule.CreateConferencesAsWritten | nbaelo/elo.py:31-55 | The loop computes the split as written. |
| Schedule.CreateConferences | nbaelo/elo.py:31-55 | The loop computes the intended split, a partition of the teams seen. |
| Schedule.GenerateTeams | nbaelo/elo.py:163-173 | An empty schedule raises StopIteration. Otherwise there is one fresh new team per key in insertion order, in the West exactly when the split of the first key's games puts it there. |
| Schedule.NewTeams | nbaelo/elo.py:169-173 | One fresh team per symbol in order, with the default rating, no record, and the West exactly for the given symbols. |
| Schedule.Credit | nbaelo/elo.py:92-101 | One side of a game adds one game and the margin, and the differential times the games played equals the margin total. |
| Schedule.PointDifferentials | nbaelo/elo.py:81-103 | Every team of the schedule gets its points scored, points allowed and games played over the complete games, and their average margin. |
| Schedule.PointsNew | nbaelo/elo.py:85-88 | A team no game names has zero counters. |
| Schedule.PointsBalance | nbaelo/elo.py:81-103 | Over all teams, points scored equal points allowed and the games played are twice the complete games. |
| Schedule.PointsBalanceAll | nbaelo/elo.py:81-103 | The same balance over the dictionary's own teams. |
| Schedule.PointsPlayed | nbaelo/elo.py:89-99 | A team's games played are the complete games in its list from `map_teams_to_their_games`. |
| Tasks.SeasonYearMeaning | nbaelo/tasks.py:8-11 | Season s holds exactly October-December of year s-1 and January-June of year s. July-September fail the assertion, and a season is the date's year or the next. |
| Tasks.SeasonYearMonotone | nbaelo/tasks.py:8-11 | A later date never belongs to an earlier season. |
| Tasks.Midnight | nbaelo/tasks.py:15-16 | The cutoff moved back to the midnight of its own day: at most one day earlier and on the same day. |
| Tasks.MidnightDays | nbaelo/tasks.py:15-19 | A time is at or after that midnight exactly when its day is not before the cutoff's day. |
| Tasks.ClearedFromMeaning | nbaelo/tasks.py:14-21 | Games on the cutoff's day or later lose both scores, even earlier that day, and earlier days are unchanged. A game at or after the cutoff is incomplete, and clearing twice changes nothing. |
| Tasks.ClearedFromAsAfter | nbaelo/tasks.py:14-21 | This is the `elo.py` clearing, taken one second before the cutoff's midnight. |
| Tasks.UncompleteGamesFrom | nbaelo/tasks.py:14-21 | In place, every listed game becomes its cleared version. |
| Tasks.Assemble | nbaelo/tasks.py:41-44 | The merge succeeds exactly when every playoff key is in both other maps, and raises KeyError otherwise. The records are keyed like the playoff map and hold each map's value for the team. |
| Scrape.FindMeaning | nbaelo/scrape.py:18 | `find` returns -1 exactly when the pattern does not occur, otherwise its first occurrence. |
| Scrape.SliceFrom | nbaelo/scrape.py:18 | Python slicing: a non-negative start is a suffix from that index, and a negative start counts from the end. |
| Scrape.SplitJoin | nbaelo/scrape.py:19 | Splitting undoes joining pieces that hold no separator. |
| Scrape.JoinSplit | nbaelo/scrape.py:19 | Joining the pieces of a split gives back the string, and no piece holds the separator. |
| Scrape.ParseInt | nbaelo/scrape.py:20 | `int` fails only with ValueError. |
| Scrape.ParseIntStr | nbaelo/scrape.py:20 | `int(str(n)) == n`, and the text of a number holds no `.` or `/`. |
| Scrape.ParseUrlNoMarker | nbaelo/scrape.py:17-21 | A link without `teams/` raises ValueError. |
| Scrape.ParseUrlRoundTrip | nbaelo/scrape.py:17-21 | A link `<prefix>teams/<team>/<year><ext>` reads back as (team, year) when the team holds no `/` and the suffix is empty or starts with `.`. |
| Scrape.MarkerAfterDomain | nbaelo/scrape.py:61 | The first `teams/` of a link on the site is the one after the domain. |
| Scrape.ParseUrlExamples | tests/tests.py:23-27 | The two test links read back as ("CLE", 2016) and ("GSW", 2015). |
| Scrape.Upper | nbaelo/scrape.py:84 | Upper-casing keeps the length and maps each character. |
| Scrape.FetchUrlShape | nbaelo/scrape.py:84 | The URL is the domain, `/teams/`, the upper-cased code, `/`, the year and `_games.html`. |
| Scrape.FetchUrlIgnoresCase | nbaelo/scrape.py:84 | Two codes give the same URL exactly when they agree once upper-cased. |
| Scrape.FetchUrlExample | tests/tests.py:58-60 | The URL for CLE in 2016 is the one the test expects, and "cle" gives the same. |
| Memo.MemoCallMeaning | nbaelo/utils.py:25-35 | A call returns `func`'s value, and `func` runs exactly on a miss or an unhashable tuple. The cache keeps its entries, gains `args` exactly on a hashable miss, and stays consistent. |
| Memo.MemoCallAsWrittenDiffers | nbaelo/utils.py:26-32 | The code as written raises TypeError exactly on an unhashable tuple, and agrees with the intended call elsewhere. |
| Memo.MemoizedListArgument | nbaelo/utils.py:26-30 | Calling with a list argument raises TypeError as written, where the comment's bypass returns the function's value. |
| Memo.MemoRunCache | nbaelo/utils.py:30-35 | After any calls, the cache holds its old entries plus exactly the hashable tuples passed, each with `func`'s value. |
| Memo.MemoRunCalls | nbaelo/utils.py:30-35 | Over any calls, `func` ran once per new key and once per unhashable call, never twice for one hashable tuple. |
| Memo.Memoized.constructor | nbaelo/utils.py:21-23 | A new decorator wraps `func` with an empty cache. |
| Memo.Memoized.CallAsWritten | nbaelo/utils.py:25-35 | The result and new cache are those of the call as written. |
| Memo.Memoized.Call | nbaelo/utils.py:25-35 | The result and new cache are those of the intended call, and the cache stays consistent with `func`. |
| Memo.TtlCallMeaning | nbaelo/utils.py:59-75 | A live entry is returned without calling `f`. A missing or expired one is replaced by `f`'s value stamped now. An unhashable tuple gets `f`'s value without caching, and no other key changes. |
| Memo.TtlNeverExpires | nbaelo/utils.py:63-66 | With a time to live of zero or less, a stored entry survives any later calls and is what a call for it returns. |
| Memo.TtlTransparent | nbaelo/utils.py:59-75 | If the cache holds `f`'s values, every call returns `f`'s value and the cache keeps holding them. |
| Memo.MemoizedTtl.constructor | nbaelo/utils.py:54-56 | A new decorator has the given time to live and an empty cache. |
| Memo.MemoizedTtl.Wrapped | nbaelo/utils.py:58-76 | The result and new cache are those of `TtlCall` at the given time. |

## Left out

- Floating point: `get_expected_outcome` and the margin factor (`(|m| + 3)^0.8 / (7.5 + 0.0006 d)`) are abstract `Engine` functions over `real`. Only their sign and range are used. Every other Python float is an exact `real` here too: the stored rating changes and their sums (`current_rating`), the `points_differential` division and the probability shares `count / len(simulated_seasons)`. League.ReplayZeroSum, Schedule.PointDifferentials, Schedule.PointsBalance and Tallies.Shares therefore hold exactly in the model, but only up to rounding in Python.
- Randomness: `random.random()` is an injected stream of reals, not a generator. The probability-level claims (that shares approach true probabilities) are out of reach.
- Playoffs.SimulateWinner: termination is assumed of the stream (`SeriesEnds`, `Fair`). With a real generator the loop ends with probability one, not for every stream.
- Playoffs.ConferenceBracket: `PlayoffSimulator` objects are not built. Its `year` and `teams` fields are never read, and its `standings` are passed directly as seeds.
- Playoffs.Series: teams enter a series as (symbol, rating) values. The ratings are not changed by the playoffs, so sharing `Team` objects makes no difference there.
- The ORM models, the Flask app, the CLI, the database writes of `generate_daily_probabilities` and `parse_game`/`parse_schedule`/`get_additional_links` (HTML parsing) are not part of this model.
- Scrape: `requests.get`, logging and `time.sleep` are I/O and are left out; only the URL `fetch_schedule` builds is modelled.
- Scrape.ParseInt: Python's `int` also accepts surrounding whitespace, underscores between digits and non-ASCII digits; the model accepts an optional sign and ASCII digits only.
- Scrape.Upper: only ASCII letters are upper-cased, where Python's `str.upper` also maps other Unicode letters.
- Tasks.SeasonYear: the date is given as its year and month, because the function reads nothing else.
- Tasks.Assemble: the three maps are inputs, not the simulator's getters; the model does not connect them to `Simulator` within one call.
- `now_pst` in `utils.py` reads the clock and converts time zones; it is left out.
- Memo: `collections.Hashable` no longer exists in Python 3.10 and later, where `Memoized.__call__` fails with AttributeError on every call. The model follows Python 3.5-3.9, where the test is true of every tuple.
- Memo.MemoizedTtl.Wrapped: `utils.py` does not import `time`, so `wrapped_f` raises NameError at its first line. The model takes the clock reading `now` as a parameter instead.
- Memo.MemoizedTtl.Wrapped: the wrapped `f` is passed on every call rather than captured by a closure, and `f` is a pure function value.
- Memo: `Memoized.__get__` (binding to an instance) and `__repr__` are not modelled.
- Simulation.Simulator.constructor: the simulator keeps the games as records, because `create_season` only reads them. Later changes to the caller's game objects are not seen, while in Python they would be.
- Schedule.PointDifferentials: returns a `map`, so the insertion order of the Python dictionary (away team, then home team, at first sight) is not kept; nothing in the core reads that order.
- Schedule.MapTeamsToGames: works on game records, not objects, so it does not model that every list holds the same shared object.
- Schedule.GenerateTeams: it uses the corrected `create_conferences`, which gives the same western set as the code as written (ConferencesAsWrittenDiffers).
- Ratings.Team.RatingHistory: the result's days are day numbers rather than `date` objects.
- Ratings: a team's rating-change dictionary is keyed by the exact timestamp. Two games of one team at the same timestamp overwrite each other, as in Python, and `ReplayZeroSum` assumes no such double booking.
- League.ApplyResult: its own contract states only that the roster is kept; what the update does is stated by ApplyResultFrame, ApplyChangeNegates, ApplyChangeRecords and WinnerGains.
- League.Replay: its own contract states only that the roster is kept; ReplayRecords, ReplayChangesOnPlayedDates and ReplayZeroSum state what it does.
- Tallies.ChampionSeason: its own contract states only that the stream never moves back; ChampionSeasonCounts states what a season adds to the counts.
- Seasons.Season.PlayThroughSeason: requires every game's teams to be roster keys and no game object to be listed twice. The source demands neither: a game naming a team missing from the roster raises KeyError partway through the loop, after the earlier games have already updated the teams, and a game object listed twice is simply replayed twice. Neither the KeyError nor that partly updated state is modelled. The seasons `Simulator` builds always meet both conditions (Simulation.SeasonOfCopies).
- Seasons.Season.PlayGame: the same roster and distinct-games requirement, so the KeyError of a game naming an unknown team is not modelled.
- Seasons.Season.SimulateRemaining: the same requirement; the source raises KeyError only when it reaches an open game naming an unknown team, after the earlier open games are already simulated. That error path is not modelled, and neither is a season listing one game object twice, which the source simulates once and skips at its second visit.
- Seasons.Season.SimulateGame: the same requirement as SimulateRemaining, whose loop step it is.
- Seasons.Season.CurrentStandings: the same requirement. The conference filters of the source raise KeyError on an unknown team, and that error is not modelled.
- Conferences: only `West` and `East` exist; a team with another conference string is not representable.

## Findings

| source | as written | input that shows it | evidently intended | confidence | as-written member | corrected member |
|---|---|---|---|---|---|---|
| nbaelo/elo.py:53-54 | The swap assigns to the misspelt `eastern_confernece`, so `eastern_conference` keeps the light teams. | A schedule of one game LAL-BOS gives ({LAL, BOS}, {LAL, BOS}). | Swap the two sets, giving a partition: ({LAL, BOS}, {}). | not executed | Schedule.CreateConferencesAsWritten | Schedule.CreateConferences |
| nbaelo/utils.py:26-32 | `isinstance(args, collections.Hashable)` is true of every tuple, so a list argument reaches `args in self.cache` and raises TypeError. | A memoized function called with `[1, 2]` as its one argument. | Bypass the cache and return `func(*args)`, as the comment says. | not executed | Memo.Memoized.CallAsWritten | Memo.Memoized.Call |
