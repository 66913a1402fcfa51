/** `Season` of nbaelo/elo.py: a roster of mutable teams keyed by symbol and
    the season's games in date order. Playing through the season updates the
    teams in place; simulating the rest fills in the open games in place. */
module Seasons {
  import opened Wrappers
  import opened Ratings
  import opened EloFormula
  import opened Games
  import opened League
  import opened Sorting
  import opened Standings

  /** `{team.symbol: team for team in teams}`: every symbol of the list is a
      key, and it maps to the last team of the list with that symbol. */
  function TeamsBySymbol(ts: seq<Team>): (m: map<string, Team>)
    ensures forall k :: k in m ==> m[k].symbol == k && m[k] in ts
    ensures forall i :: 0 <= i < |ts| ==> ts[i].symbol in m
  {
    if ts == [] then map[]
    else
      var prev := TeamsBySymbol(ts[..|ts| - 1]);
      var t := ts[|ts| - 1];
      assert forall i :: 0 <= i < |ts| - 1 ==> ts[..|ts| - 1][i] == ts[i];
      prev[t.symbol := t]
  }

  /** A later team with the same symbol replaces an earlier one: each key
      maps to the last team of the list that has that symbol. */
  lemma {:induction false} TeamsBySymbolLast(ts: seq<Team>, k: string)
    requires k in TeamsBySymbol(ts)
    ensures exists i :: (0 <= i < |ts| && ts[i] == TeamsBySymbol(ts)[k] &&
      forall j :: i < j < |ts| ==> ts[j].symbol != k)
  {
    var prefix := ts[..|ts| - 1];
    var t := ts[|ts| - 1];
    if t.symbol == k {
      assert ts[|ts| - 1] == TeamsBySymbol(ts)[k];
    } else {
      TeamsBySymbolLast(prefix, k);
      var i :| 0 <= i < |prefix| && prefix[i] == TeamsBySymbol(prefix)[k] &&
        forall j :: i < j < |prefix| ==> prefix[j].symbol != k;
      assert ts[i] == TeamsBySymbol(ts)[k];
      assert forall j :: i < j < |ts| ==> ts[j].symbol != k by {
        forall j | i < j < |ts| ensures ts[j].symbol != k {
          if j < |ts| - 1 { assert ts[j] == prefix[j]; }
        }
      }
    }
  }

  /** The sort key of `sorted(games, key=lambda x: x.date)`. */
  function GameKey(g: Game): Key { (g.date, 0) }

  /** Number of open (incomplete) games. */
  function OpenCount(rs: seq<GameRec>): nat {
    if rs == [] then 0
    else OpenCount(rs[..|rs| - 1]) + (if rs[|rs| - 1].IsComplete() then 0 else 1)
  }

  /** One game of `simulate_remaining` on values: kept when complete,
      otherwise simulated with the draw against the two current ratings. */
  function SimulateOne(g: GameRec, e: Engine, l: League, draw: real): (r: GameRec)
    requires g.home in l && g.away in l
    ensures r.IsComplete()
    ensures g.IsComplete() ==> r == g
    ensures r.home == g.home && r.away == g.away && r.date == g.date
  {
    if g.IsComplete() then g
    else Simulated(g, draw < e.expected(l[g.home].Rating(), l[g.away].Rating()))
  }

  /** The stream position at which each game of `rs` is reached when
      simulation starts at `pos`: an open game takes one draw, a complete
      game none. The last entry is the position after the whole schedule. */
  function DrawPositions(rs: seq<GameRec>, pos: nat): (p: seq<nat>)
    ensures |p| == |rs| + 1 && p[0] == pos
  {
    if rs == [] then [pos]
    else [pos] + DrawPositions(rs[1..], pos + (if rs[0].IsComplete() then 0 else 1))
  }

  /** Moving past game `i` advances the stream by one draw iff it is open. */
  lemma {:induction false} DrawPositionsStep(rs: seq<GameRec>, pos: nat, i: nat)
    requires i < |rs|
    ensures DrawPositions(rs, pos)[i + 1] == DrawPositions(rs, pos)[i] + (if rs[i].IsComplete() then 0 else 1)
  {
    if i > 0 {
      DrawPositionsStep(rs[1..], pos + (if rs[0].IsComplete() then 0 else 1), i - 1);
    }
  }

  /** The position reached at game `i` is `pos` plus the open games before it. */
  lemma {:induction false} DrawPositionsCount(rs: seq<GameRec>, pos: nat, i: nat)
    requires i <= |rs|
    ensures DrawPositions(rs, pos)[i] == pos + OpenCount(rs[..i])
  {
    if i > 0 {
      DrawPositionsCount(rs, pos, i - 1);
      DrawPositionsStep(rs, pos, i - 1);
      assert rs[..i][..i - 1] == rs[..i - 1];
    }
  }

  /** No two open games share a draw: each open game consumes its own
      number from the stream. */
  lemma {:induction false} DistinctDraws(rs: seq<GameRec>, pos: nat, i: nat, j: nat)
    requires i < j <= |rs| && !rs[i].IsComplete()
    ensures DrawPositions(rs, pos)[i] < DrawPositions(rs, pos)[j]
    decreases j
  {
    DrawPositionsStep(rs, pos, j - 1);
    if i < j - 1 {
      DistinctDraws(rs, pos, i, j - 1);
    }
  }

  /** `simulate_remaining` on values: each game in order, an open one
      simulated with the draw at its stream position. */
  function SimulateOpen(rs: seq<GameRec>, e: Engine, l: League, draws: nat -> real, pos: nat): (r: seq<GameRec>)
    requires Covers(l, rs)
  {
    var p := DrawPositions(rs, pos);
    seq(|rs|, i requires 0 <= i < |rs| => SimulateOne(rs[i], e, l, draws(p[i])))
  }

  /** After simulating, every game is complete and keeps its teams and
      date, and every game that was complete is unchanged. */
  lemma SimulateOpenEffect(rs: seq<GameRec>, e: Engine, l: League, draws: nat -> real, pos: nat)
    requires Covers(l, rs)
    ensures |SimulateOpen(rs, e, l, draws, pos)| == |rs|
    ensures forall i :: 0 <= i < |rs| ==> SimulateOpen(rs, e, l, draws, pos)[i].IsComplete()
    ensures forall i :: 0 <= i < |rs| ==>
      var r := SimulateOpen(rs, e, l, draws, pos)[i];
      r.home == rs[i].home && r.away == rs[i].away && r.date == rs[i].date
    ensures forall i :: 0 <= i < |rs| && rs[i].IsComplete() ==> SimulateOpen(rs, e, l, draws, pos)[i] == rs[i]
  {
  }

  /** The position after the last game is `pos` plus the number of open
      games. */
  lemma DrawPositionsTotal(rs: seq<GameRec>, pos: nat)
    ensures DrawPositions(rs, pos)[|rs|] == pos + OpenCount(rs)
  {
    DrawPositionsCount(rs, pos, |rs|);
    assert rs[..|rs|] == rs;
  }

  /** The games after the first `i` of them have been simulated. */
  function SimulatedUpTo(rs: seq<GameRec>, e: Engine, l: League, draws: nat -> real, pos: nat, i: nat): (r: seq<GameRec>)
    requires Covers(l, rs) && i <= |rs|
    ensures |r| == |rs|
  {
    SimulateOpen(rs, e, l, draws, pos)[..i] + rs[i..]
  }

  lemma SimulatedUpToNext(rs: seq<GameRec>, e: Engine, l: League, draws: nat -> real, pos: nat, i: nat)
    requires Covers(l, rs) && i < |rs|
    ensures SimulatedUpTo(rs, e, l, draws, pos, i)[i] == rs[i]
    ensures SimulatedUpTo(rs, e, l, draws, pos, i)[i := SimulateOne(rs[i], e, l, draws(DrawPositions(rs, pos)[i]))]
            == SimulatedUpTo(rs, e, l, draws, pos, i + 1)
  {
  }

  lemma SimulatedUpToAll(rs: seq<GameRec>, e: Engine, l: League, draws: nat -> real, pos: nat)
    requires Covers(l, rs)
    ensures SimulatedUpTo(rs, e, l, draws, pos, |rs|) == SimulateOpen(rs, e, l, draws, pos)
  {
  }

  /** Every team of a roster is well formed. */
  ghost predicate TeamsValid(m: map<string, Team>)
    reads m.Values
  {
    forall k :: k in m ==> m[k].Valid()
  }

  /** A roster's state, by symbol. */
  function RatingsOf(m: map<string, Team>): League
    reads m.Values
  {
    map k | k in m :: m[k].Rec()
  }

  class Season {
    const year: int
    const teams: map<string, Team>
    const games: seq<Game>

    /** `Season(year, teams, games)`: the roster keyed by symbol and the
        games sorted by date (stable, as Python's `sorted`). */
    constructor (year: int, ts: seq<Team>, gs: seq<Game>)
      ensures this.year == year && teams == TeamsBySymbol(ts) && games == SortBy(gs, GameKey)
      ensures SortedBy(games, GameKey) && multiset(games) == multiset(gs)
    {
      this.year := year;
      teams := TeamsBySymbol(ts);
      games := SortBy(gs, GameKey);
    }

    /** Every game names two teams of the roster, each roster key is its
        team's symbol, and no game object is listed twice. */
    ghost predicate Shape() {
      (forall i :: 0 <= i < |games| ==> games[i].home in teams && games[i].away in teams) &&
      (forall k :: k in teams ==> teams[k].symbol == k) &&
      DistinctGames(games)
    }

    ghost predicate Valid()
      reads teams.Values
    {
      Shape() && TeamsValid(teams)
    }

    /** The teams' state, by symbol. */
    function Ratings(): League
      reads teams.Values
    {
      RatingsOf(teams)
    }

    /** Each team's conference, by symbol. */
    function Conferences(): map<string, Conference> {
      map k | k in teams :: teams[k].conference
    }

    /** The games' state, in season order. */
    function Recs(): seq<GameRec>
      reads games
    {
      RecsOf(games)
    }

    /** `update_ratings(game, k_factor)`: looks up both teams (KeyError when
        either is missing), computes the margin (TypeError on a missing
        score), then records the Elo change for the home team and its
        negation for the away team. */
    method UpdateRatings(g: Game, e: Engine, k: Option<real>) returns (r: Result<()>)
      requires Valid()
      modifies teams.Values
      ensures Valid() && Recs() == old(Recs())
      ensures r.Err? <==> g.home !in teams || g.away !in teams || !g.IsComplete()
      ensures r.Err? ==> r.error == (if g.home in teams && g.away in teams then TypeError else KeyError)
      ensures r.Err? ==> Ratings() == old(Ratings())
      ensures r.Ok? ==> Ratings() == ApplyResult(old(Ratings()), e, if k.Some? then k.value else KFactor, g.Rec())
    {
      if g.home !in teams || g.away !in teams {
        return Err(KeyError);
      }
      if !g.IsComplete() {
        return Err(TypeError);
      }
      var kFactor := if k.Some? then k.value else KFactor;
      var home, away := teams[g.home], teams[g.away];
      var homePoints, awayPoints := g.homePoints.value, g.awayPoints.value;
      var homeChange := HomeChange(e, kFactor, home.CurrentRating(), away.CurrentRating(), homePoints, awayPoints);
      ApplyResultWith(Ratings(), e, kFactor, g.Rec(), home.CurrentRating(), away.CurrentRating());
      RecordResult(g.Rec(), homeChange);
      r := Ok(());
    }

    /** The second half of `update_ratings`: with the home change `d`
        computed, the home team records `d` and the away team `-d`, each
        with its side of the result. */
    method RecordResult(g: GameRec, d: real)
      requires Valid() && g.IsComplete() && g.home in teams && g.away in teams
      modifies teams.Values
      ensures Valid() && Recs() == old(Recs())
      ensures Ratings() == ApplyChange(old(Ratings()), g, d)
    {
      var homeWon := g.homePoints.value - g.awayPoints.value > 0;
      ghost var r0 := Ratings();
      RecordFor(g.home, g.date, d, homeWon);
      ghost var r1 := Ratings();
      RecordFor(g.away, g.date, -d, !homeWon);
      ApplyChangeSteps(r0, r1, Ratings(), g, d);
    }

    /** `team.update_rating(date, change, is_win)` on the roster's team
        `sym`: the roster's state changes in that one entry. */
    method RecordFor(sym: string, date: int, change: real, isWin: bool)
      requires Valid() && sym in teams
      modifies teams[sym]
      ensures Valid() && Recs() == old(Recs())
      ensures Ratings() == old(Ratings())[sym := old(Ratings())[sym].Record(date, change, isWin)]
    {
      teams[sym].UpdateRating(date, change, isWin);
      assert forall k :: k in teams && k != sym ==> teams[k] != teams[sym];
    }

    /** `play_through_season(stop_date)`: every complete game not dated
        before the stop date updates the ratings, in season order. */
    method PlayThroughSeason(e: Engine, stop: Option<int>)
      requires Valid()
      modifies teams.Values
      ensures Valid() && Recs() == old(Recs())
      ensures Ratings() == Replay(old(Ratings()), e, old(Recs()), stop)
    {
      ghost var r0 := Ratings();
      ghost var rs := Recs();
      assert Covers(r0, rs);
      for i := 0 to |games|
        invariant Valid()
        invariant Recs() == rs
        invariant Ratings() == Replay(r0, e, rs[..i], stop)
      {
        assert games[i].Rec() == rs[i];
        ReplayNext(r0, e, rs, i, stop);
        PlayGame(games[i], e, stop);
      }
      assert rs[..|games|] == rs;
    }

    /** The body of `play_through_season`'s loop for one game: skipped when
        open or dated before the stop date, otherwise `update_ratings`. */
    method PlayGame(game: Game, e: Engine, stop: Option<int>)
      requires Valid() && game.home in teams && game.away in teams
      modifies teams.Values
      ensures Valid() && Recs() == old(Recs())
      ensures Ratings() == if Counted(old(game.Rec()), stop)
        then ApplyResult(old(Ratings()), e, KFactor, old(game.Rec())) else old(Ratings())
    {
      if !game.IsComplete() {
        return;
      }
      if stop.Some? && stop.value > game.date {
        return;
      }
      var _ := UpdateRatings(game, e, None);
    }

    /** `is_season_complete`: every game has both scores. */
    predicate IsSeasonComplete()
      reads games
    {
      forall i :: 0 <= i < |games| ==> games[i].IsComplete()
    }

    /** `simulate_remaining()`: every open game is simulated with the
        current ratings of its teams, which the simulation never changes;
        `draws` stands for the calls to `random.random()`, of which the k-th
        open game uses number `pos + k`. */
    method SimulateRemaining(e: Engine, draws: nat -> real, pos: nat) returns (next: nat)
      requires Shape()
      modifies games
      ensures Ratings() == old(Ratings())
      ensures Recs() == SimulateOpen(old(Recs()), e, Ratings(), draws, pos)
      ensures next == pos + OpenCount(old(Recs()))
      ensures IsSeasonComplete()
    {
      ghost var l := Ratings();
      ghost var rs := Recs();
      next := pos;
      for i := 0 to |games|
        invariant Simulating(rs, e, l, draws, pos, i, next)
      {
        next := SimulateAt(i, e, draws, next, rs, l, pos);
      }
      SimulatedUpToAll(rs, e, l, draws, pos);
      DrawPositionsTotal(rs, pos);
      SimulateOpenEffect(rs, e, l, draws, pos);
    }

    /** The state of `simulate_remaining` before game `i`: the ratings are
        untouched, the games before `i` are simulated, and `next` is the
        stream position reached. */
    ghost predicate Simulating(rs: seq<GameRec>, e: Engine, l: League, draws: nat -> real, pos: nat, i: nat, next: nat)
      reads games, teams.Values
    {
      Shape() && Covers(l, rs) && i <= |rs| == |games| &&
      Ratings() == l && Recs() == SimulatedUpTo(rs, e, l, draws, pos, i) &&
      next == DrawPositions(rs, pos)[i]
    }

    /** One step of `simulate_remaining`: the game at index `i`, if open, is
        simulated with the current ratings of its teams and the draw at
        position `next`, which then advances. */
    method SimulateAt(i: nat, e: Engine, draws: nat -> real, next: nat,
                      ghost rs: seq<GameRec>, ghost l: League, ghost pos: nat) returns (next': nat)
      requires i < |games| && Simulating(rs, e, l, draws, pos, i, next)
      modifies games[i]
      ensures Simulating(rs, e, l, draws, pos, i + 1, next')
    {
      SimulatedUpToNext(rs, e, l, draws, pos, i);
      DrawPositionsStep(rs, pos, i);
      var open := !games[i].IsComplete();
      SimulateGame(i, e, draws(next));
      next' := if open then next + 1 else next;
    }

    /** The game at index `i`, if open, simulated with the current ratings
        of its teams; the teams and every other game are untouched. */
    method SimulateGame(i: nat, e: Engine, draw: real)
      requires Shape() && i < |games|
      modifies games[i]
      ensures Ratings() == old(Ratings())
      ensures Recs() == old(Recs())[i := SimulateOne(old(Recs())[i], e, Ratings(), draw)]
    {
      var game := games[i];
      if game.IsComplete() {
        return;
      }
      var home, away := teams[game.home], teams[game.away];
      var _ := game.Simulate(e, home.CurrentRating(), away.CurrentRating(), draw);
    }

    /** `first_day`: the earliest game date; `min` of nothing raises
        ValueError. */
    function FirstDay(): (r: Result<int>)
      ensures r.Err? <==> games == []
      ensures r.Err? ==> r.error == ValueError
      ensures r.Ok? ==> (exists i :: 0 <= i < |games| && games[i].date == r.value) &&
                        forall i :: 0 <= i < |games| ==> r.value <= games[i].date
    {
      if games == [] then Err(ValueError) else Ok(MinGameDate(games))
    }

    /** `last_day`: the latest game date; `max` of nothing raises
        ValueError. */
    function LastDay(): (r: Result<int>)
      ensures r.Err? <==> games == []
      ensures r.Err? ==> r.error == ValueError
      ensures r.Ok? ==> (exists i :: 0 <= i < |games| && games[i].date == r.value) &&
                        forall i :: 0 <= i < |games| ==> games[i].date <= r.value
    {
      if games == [] then Err(ValueError) else Ok(MaxGameDate(games))
    }

    /** `current_season_date`: the day of the first open game; when every
        game is complete, the day of the last game (the loop variable
        outlives the loop); with no games at all the variable is unbound. */
    method CurrentSeasonDate() returns (r: Result<int>)
      ensures r.Err? <==> games == []
      ensures r.Err? ==> r.error == UnboundLocalError
      ensures r.Ok? ==> exists i :: (0 <= i < |games| && r.value == DayOf(games[i].date) &&
        (forall j :: 0 <= j < i ==> games[j].IsComplete()) &&
        (!games[i].IsComplete() || i == |games| - 1))
    {
      if games == [] {
        return Err(UnboundLocalError);
      }
      var i := 0;
      while i < |games|
        invariant 0 <= i <= |games|
        invariant forall j :: 0 <= j < i ==> games[j].IsComplete()
      {
        if !games[i].IsComplete() {
          return Ok(DayOf(games[i].date));
        }
        i := i + 1;
      }
      r := Ok(DayOf(games[|games| - 1].date));
    }

    /** The standings the season's games give. */
    ghost function Standings(): Result<(seq<Row>, seq<Row>)>
      requires Shape()
      reads games
    {
      StandingsOf(Recs(), Conferences())
    }

    /** `current_standings`: the records from the complete games (an
        AssertionError on a level score), split by conference and sorted. */
    method CurrentStandings() returns (r: Result<(seq<Row>, seq<Row>)>)
      requires Shape()
      ensures r == Standings()
    {
      ghost var rs := Recs();
      var rows: seq<Row> := [];
      for i := 0 to |games|
        invariant Tally(rs[..i]) == Ok(rows)
      {
        TallyNext(rs, i);
        var game := games[i];
        if !game.IsComplete() {
          continue;
        }
        rows := Ensure(Ensure(rows, game.home), game.away);
        if game.homePoints.value == game.awayPoints.value {
          TallyFails(rs);
          return Err(AssertionError);
        }
        var homeWon := game.homePoints.value > game.awayPoints.value;
        rows := Bump(Bump(rows, game.home, homeWon), game.away, !homeWon);
      }
      assert rs[..|games|] == rs;
      TallyInConference(rs, Conferences());
      var western := InConference(rows, Conferences(), West);
      var eastern := InConference(rows, Conferences(), East);
      r := Ok((SortStandings(western), SortStandings(eastern)));
    }
  }

  function MinGameDate(gs: seq<Game>): (m: int)
    requires gs != []
    ensures exists i :: 0 <= i < |gs| && gs[i].date == m
    ensures forall i :: 0 <= i < |gs| ==> m <= gs[i].date
  {
    if |gs| == 1 then gs[0].date
    else
      var m := MinGameDate(gs[1..]);
      assert forall i :: 1 <= i < |gs| ==> gs[i] == gs[1..][i - 1];
      if gs[0].date <= m then gs[0].date else m
  }

  function MaxGameDate(gs: seq<Game>): (m: int)
    requires gs != []
    ensures exists i :: 0 <= i < |gs| && gs[i].date == m
    ensures forall i :: 0 <= i < |gs| ==> gs[i].date <= m
  {
    if |gs| == 1 then gs[0].date
    else
      var m := MaxGameDate(gs[1..]);
      assert forall i :: 1 <= i < |gs| ==> gs[i] == gs[1..][i - 1];
      if gs[0].date >= m then gs[0].date else m
  }
}
