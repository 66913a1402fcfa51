/** The module-level helpers of nbaelo/elo.py that work on a whole list of
    games: clearing the scores of later games, the team -> games
    dictionary, the conference split by appearance count, the teams of a
    season, and the per-team point counters. */
module Schedule {
  import opened Wrappers
  import opened Ratings
  import opened Games
  import opened Standings

  // ---------------------------------------------------------------------
  // uncomplete_games

  /** A game with both scores removed. */
  function Unscored(g: GameRec): (r: GameRec)
    ensures !IsGameComplete(r) && !r.IsComplete()
    ensures r.home == g.home && r.away == g.away && r.date == g.date && r.isSimulated == g.isSimulated
  {
    g.(homePoints := None, awayPoints := None)
  }

  /** A game after `uncomplete_games(games, after)`: the scores are removed
      from a game dated strictly after `after`. */
  function ClearedAfter(g: GameRec, after: int): GameRec {
    if g.date > after then Unscored(g) else g
  }

  /** Clearing keeps teams and dates, leaves no score on a later game and
      keeps an earlier or same-time game as it was; clearing at two cutoffs
      is clearing at the earlier one, so a second pass changes nothing. */
  lemma ClearedAfterMeaning(g: GameRec, after: int, after': int)
    ensures var r := ClearedAfter(g, after);
      r.home == g.home && r.away == g.away && r.date == g.date && r.isSimulated == g.isSimulated &&
      (g.date > after ==> !IsGameComplete(r)) &&
      (g.date <= after ==> r == g) &&
      ClearedAfter(r, after') == ClearedAfter(g, if after < after' then after else after')
  {
  }

  /** `uncomplete_games(games, after_date)`: every game of the list dated
      strictly after the cutoff loses its scores. A game object listed
      twice is cleared once; clearing it again changes nothing. */
  method UncompleteGames(games: seq<Game>, after: int)
    modifies games
    ensures forall i :: 0 <= i < |games| ==> games[i].Rec() == ClearedAfter(old(games[i].Rec()), after)
  {
    for i := 0 to |games|
      invariant forall j :: 0 <= j < |games| && games[j] in games[..i] ==>
        games[j].Rec() == ClearedAfter(old(games[j].Rec()), after)
      invariant forall j :: 0 <= j < |games| && games[j] !in games[..i] ==>
        games[j].Rec() == old(games[j].Rec())
    {
      var g := games[i];
      if g.date > after {
        g.homePoints := None;
        g.awayPoints := None;
      }
      assert games[..i + 1] == games[..i] + [g];
    }
    assert games[..|games|] == games;
  }

  // ---------------------------------------------------------------------
  // map_teams_to_their_games

  /** The teams named by the games, home or away. */
  function TeamsIn(gs: seq<GameRec>): set<string> {
    if gs == [] then {}
    else TeamsIn(gs[..|gs| - 1]) + {gs[|gs| - 1].home, gs[|gs| - 1].away}
  }

  /** A team is in the set exactly when some game names it. */
  lemma {:induction false} TeamsInMeaning(gs: seq<GameRec>, t: string)
    ensures t in TeamsIn(gs) <==> exists i :: 0 <= i < |gs| && (gs[i].home == t || gs[i].away == t)
  {
    if gs != [] {
      var prefix := gs[..|gs| - 1];
      TeamsInMeaning(prefix, t);
      assert forall i :: 0 <= i < |prefix| ==> prefix[i] == gs[i];
      if t in TeamsIn(gs) && t !in TeamsIn(prefix) {
        assert gs[|gs| - 1].home == t || gs[|gs| - 1].away == t;
      }
      if exists i :: 0 <= i < |gs| && (gs[i].home == t || gs[i].away == t) {
        var i :| 0 <= i < |gs| && (gs[i].home == t || gs[i].away == t);
        if i < |prefix| {
          assert prefix[i].home == t || prefix[i].away == t;
        }
      }
    }
  }

  lemma TeamsInSnoc(gs: seq<GameRec>, g: GameRec)
    ensures TeamsIn(gs + [g]) == TeamsIn(gs) + {g.home, g.away}
  {
    assert (gs + [g])[..|gs|] == gs;
  }

  lemma TeamsInStep(gs: seq<GameRec>, i: nat)
    requires i < |gs|
    ensures TeamsIn(gs[..i + 1]) == TeamsIn(gs[..i]) + {gs[i].home, gs[i].away}
  {
    assert gs[..i + 1] == gs[..i] + [gs[i]];
    TeamsInSnoc(gs[..i], gs[i]);
  }

  /** The keys of the dictionary in insertion order: the home team of each
      game, then its away team, each the first time it is seen. */
  function TeamOrder(gs: seq<GameRec>): seq<string> {
    if gs == [] then []
    else
      var prev := TeamOrder(gs[..|gs| - 1]);
      var last := gs[|gs| - 1];
      var withHome := if last.home in prev then prev else prev + [last.home];
      if last.away in withHome then withHome else withHome + [last.away]
  }

  lemma TeamOrderStep(gs: seq<GameRec>, i: nat)
    requires i < |gs|
    ensures var prev := TeamOrder(gs[..i]);
      var withHome := if gs[i].home in prev then prev else prev + [gs[i].home];
      TeamOrder(gs[..i + 1]) == if gs[i].away in withHome then withHome else withHome + [gs[i].away]
  {
    assert gs[..i + 1][..i] == gs[..i];
  }

  predicate Distinct<T(==)>(s: seq<T>) {
    forall i, j :: 0 <= i < j < |s| ==> s[i] != s[j]
  }

  /** The insertion order names every team of the schedule exactly once and
      starts with the first game's home team. */
  lemma {:induction false} TeamOrderMeaning(gs: seq<GameRec>)
    ensures Distinct(TeamOrder(gs))
    ensures forall t :: t in TeamOrder(gs) <==> t in TeamsIn(gs)
    ensures |TeamOrder(gs)| == 0 <==> gs == []
    ensures gs != [] ==> TeamOrder(gs)[0] == gs[0].home
  {
    if gs != [] {
      var prefix, last := gs[..|gs| - 1], gs[|gs| - 1];
      TeamOrderMeaning(prefix);
      var prev := TeamOrder(prefix);
      var withHome := if last.home in prev then prev else prev + [last.home];
      DistinctSnoc(prev, last.home);
      DistinctSnoc(withHome, last.away);
      assert forall t :: t in withHome <==> t in prev || t == last.home;
      if prefix != [] {
        assert prefix[0] == gs[0];
      }
    }
  }

  lemma DistinctSnoc<T>(s: seq<T>, x: T)
    requires Distinct(s)
    ensures x !in s ==> Distinct(s + [x])
  {
  }

  /** The list `map_teams_to_their_games` builds for team `t`: every game
      it takes part in, in schedule order; a game whose home and away team
      are the same is appended once for each side. */
  function GamesFor(gs: seq<GameRec>, t: string): seq<GameRec> {
    if gs == [] then []
    else
      var last := gs[|gs| - 1];
      GamesFor(gs[..|gs| - 1], t) + (if last.home == t then [last] else []) + (if last.away == t then [last] else [])
  }

  lemma GamesForStep(gs: seq<GameRec>, i: nat, t: string)
    requires i < |gs|
    ensures GamesFor(gs[..i + 1], t) ==
      GamesFor(gs[..i], t) + (if gs[i].home == t then [gs[i]] else []) + (if gs[i].away == t then [gs[i]] else [])
  {
    assert gs[..i + 1][..i] == gs[..i];
  }

  /** The loop's two appends extend a team's list to the next game. */
  lemma AppendGame(gs: seq<GameRec>, i: nat, t: string, seeded: seq<GameRec>, homed: seq<GameRec>, final: seq<GameRec>)
    requires i < |gs| && seeded == GamesFor(gs[..i], t)
    requires homed == if gs[i].home == t then seeded + [gs[i]] else seeded
    requires final == if gs[i].away == t then homed + [gs[i]] else homed
    ensures final == GamesFor(gs[..i + 1], t)
  {
    GamesForStep(gs, i, t);
  }

  /** A team's list holds exactly the games that name it, in order: each of
      them is a game of the schedule naming the team, every such game is
      listed, and the list is empty exactly for a team that never plays. */
  lemma {:induction false} GamesForMeaning(gs: seq<GameRec>, t: string)
    ensures forall g :: g in GamesFor(gs, t) ==> g in gs && (g.home == t || g.away == t)
    ensures forall i :: 0 <= i < |gs| && (gs[i].home == t || gs[i].away == t) ==> gs[i] in GamesFor(gs, t)
    ensures GamesFor(gs, t) == [] <==> t !in TeamsIn(gs)
  {
    if gs != [] {
      var prefix := gs[..|gs| - 1];
      var last := gs[|gs| - 1];
      GamesForMeaning(prefix, t);
      TeamsInSnoc(prefix, last);
      assert prefix + [last] == gs;
      forall i | 0 <= i < |gs| && (gs[i].home == t || gs[i].away == t)
        ensures gs[i] in GamesFor(gs, t)
      {
        if i < |gs| - 1 {
          assert prefix[i] == gs[i];
        }
      }
    }
  }

  /** `map_teams_to_their_games`: for each game, a list is opened for the
      home and the away team when missing, then the game is appended to
      both. Returns the keys in insertion order with the dictionary. */
  method MapTeamsToGames(gs: seq<GameRec>) returns (order: seq<string>, teams: map<string, seq<GameRec>>)
    ensures order == TeamOrder(gs)
    ensures teams.Keys == TeamsIn(gs)
    ensures forall t :: t in teams ==> teams[t] == GamesFor(gs, t)
  {
    order := [];
    teams := map[];
    for i := 0 to |gs|
      invariant Mapped(gs[..i], order, teams)
    {
      order, teams := AddTeams(gs, i, order, teams);
      teams := AddGame(gs, i, teams);
    }
    assert gs[..|gs|] == gs;
    TeamOrderMeaning(gs);
  }

  /** The dictionary and its key order after the games `gs`. */
  predicate Mapped(gs: seq<GameRec>, order: seq<string>, teams: map<string, seq<GameRec>>) {
    && order == TeamOrder(gs)
    && teams.Keys == TeamsIn(gs)
    && forall t :: t in teams ==> teams[t] == GamesFor(gs, t)
  }

  /** First half of one step: the teams of game `i` get an empty list and a
      place in the key order when they are new. */
  method AddTeams(gs: seq<GameRec>, i: nat, order: seq<string>, teams: map<string, seq<GameRec>>)
    returns (order': seq<string>, teams': map<string, seq<GameRec>>)
    requires i < |gs| && Mapped(gs[..i], order, teams)
    ensures order' == TeamOrder(gs[..i + 1])
    ensures teams'.Keys == TeamsIn(gs[..i + 1])
    ensures forall t :: t in teams' ==> teams'[t] == GamesFor(gs[..i], t)
  {
    var g := gs[i];
    TeamOrderStep(gs, i);
    TeamOrderMeaning(gs[..i]);
    TeamsInStep(gs, i);
    order', teams' := order, teams;
    if g.home !in teams' {
      teams' := teams'[g.home := []];
      order' := order' + [g.home];
    }
    if g.away !in teams' {
      teams' := teams'[g.away := []];
      order' := order' + [g.away];
    }
    assert teams'.Keys == teams.Keys + {g.home, g.away};
    forall t | t in teams'
      ensures teams'[t] == GamesFor(gs[..i], t)
    {
      if t !in teams {
        GamesForMeaning(gs[..i], t);
      }
    }
  }

  /** Second half of one step: game `i` is appended to its home team's list,
      then to its away team's list. */
  method AddGame(gs: seq<GameRec>, i: nat, teams: map<string, seq<GameRec>>) returns (teams': map<string, seq<GameRec>>)
    requires i < |gs| && gs[i].home in teams && gs[i].away in teams
    requires forall t :: t in teams ==> teams[t] == GamesFor(gs[..i], t)
    ensures teams'.Keys == teams.Keys
    ensures forall t :: t in teams' ==> teams'[t] == GamesFor(gs[..i + 1], t)
  {
    var g := gs[i];
    var homed := teams[g.home := teams[g.home] + [g]];
    assert homed.Keys == teams.Keys;
    teams' := homed[g.away := homed[g.away] + [g]];
    assert teams'.Keys == homed.Keys;
    forall t | t in teams'
      ensures teams'[t] == GamesFor(gs[..i + 1], t)
    {
      AppendGame(gs, i, t, teams[t], homed[t], teams'[t]);
    }
  }

  // ---------------------------------------------------------------------
  // create_conferences

  /** The team the split is anchored on: it is known to play in the West. */
  const Anchor: string := "LAL"

  /** `team_count`: every game adds one for its home and one for its away
      team, so a team's count is the length of its list of games. */
  method CountAppearances(gs: seq<GameRec>) returns (counts: map<string, nat>)
    ensures counts.Keys == TeamsIn(gs)
    ensures forall t :: t in counts ==> counts[t] == |GamesFor(gs, t)|
  {
    counts := map[];
    for i := 0 to |gs|
      invariant counts.Keys == TeamsIn(gs[..i])
      invariant forall t :: t in counts ==> counts[t] == |GamesFor(gs[..i], t)|
    {
      var g := gs[i];
      TeamsInStep(gs, i);
      counts := counts[g.home := (if g.home in counts then counts[g.home] else 0) + 1];
      counts := counts[g.away := (if g.away in counts then counts[g.away] else 0) + 1];
      forall t | t in counts
        ensures counts[t] == |GamesFor(gs[..i + 1], t)|
      {
        GamesForStep(gs, i, t);
        if t !in TeamsIn(gs[..i]) {
          GamesForMeaning(gs[..i], t);
        }
      }
    }
    assert gs[..|gs|] == gs;
  }

  /** The teams seen more than twice, and those seen at most twice. */
  function Heavy(gs: seq<GameRec>): set<string> {
    set t | t in TeamsIn(gs) && |GamesFor(gs, t)| > 2
  }

  function Light(gs: seq<GameRec>): set<string> {
    set t | t in TeamsIn(gs) && |GamesFor(gs, t)| <= 2
  }

  /** The swap branch fires: the anchor team is among the light teams. */
  predicate AnchorLight(gs: seq<GameRec>) {
    Anchor !in Heavy(gs) && Anchor in Light(gs)
  }

  /** `create_conferences` as written: the swap assigns to a misspelt name,
      so when it fires both returned sets are the light teams. */
  function ConferencesAsWritten(gs: seq<GameRec>): (set<string>, set<string>) {
    if AnchorLight(gs) then (Light(gs), Light(gs)) else (Heavy(gs), Light(gs))
  }

  /** `create_conferences` as evidently intended: the two sets swapped when
      the anchor team is light. */
  function Conferences(gs: seq<GameRec>): (set<string>, set<string>) {
    if AnchorLight(gs) then (Light(gs), Heavy(gs)) else (Heavy(gs), Light(gs))
  }

  /** The intended split is a partition of the teams seen, with the anchor
      team, when seen, in the first (western) set. */
  lemma ConferencesPartition(gs: seq<GameRec>)
    ensures var (west, east) := Conferences(gs);
      west * east == {} && west + east == TeamsIn(gs) &&
      (Anchor in TeamsIn(gs) ==> Anchor in west)
  {
  }

  /** The misspelling only loses the eastern set: the western set is the
      intended one, and when the swap fires the two sets returned are the
      same, so they overlap unless empty and miss every heavy team. */
  lemma ConferencesAsWrittenDiffers(gs: seq<GameRec>)
    ensures ConferencesAsWritten(gs).0 == Conferences(gs).0
    ensures AnchorLight(gs) ==>
      (ConferencesAsWritten(gs).0 == ConferencesAsWritten(gs).1 &&
       Anchor in ConferencesAsWritten(gs).0 * ConferencesAsWritten(gs).1 &&
       ConferencesAsWritten(gs).0 + ConferencesAsWritten(gs).1 == TeamsIn(gs) - Heavy(gs))
  {
  }

  /** One game between LAL and BOS: both teams appear once, the swap fires,
      and the split as written puts both teams in both conferences where
      the intended split puts them both in the West and none in the East. */
  lemma ConferencesTypoWitness()
    ensures var gs := [GameRec(Anchor, "BOS", 0, Some(100), Some(90), false)];
      ConferencesAsWritten(gs) == ({Anchor, "BOS"}, {Anchor, "BOS"}) &&
      Conferences(gs) == ({Anchor, "BOS"}, {})
  {
    var g := GameRec(Anchor, "BOS", 0, Some(100), Some(90), false);
    var gs := [g];
    assert gs[..0] == [];
    assert TeamsIn(gs) == {Anchor, "BOS"} by {
      TeamsInSnoc([], g);
      assert [] + [g] == gs;
    }
    assert |GamesFor(gs, Anchor)| == 1;
    assert |GamesFor(gs, "BOS")| == 1;
    assert Light(gs) == {Anchor, "BOS"};
    assert Heavy(gs) == {};
  }

  /** `create_conferences` as written: counts each team's appearances,
      splits at more than two, and performs the misspelt swap. */
  method CreateConferencesAsWritten(gs: seq<GameRec>) returns (west: set<string>, east: set<string>)
    ensures (west, east) == ConferencesAsWritten(gs)
  {
    var counts := CountAppearances(gs);
    west := set t | t in counts && counts[t] > 2;
    east := set t | t in counts && counts[t] <= 2;
    assert west == Heavy(gs) && east == Light(gs);
    if Anchor !in west && Anchor in east {
      west := east;
    }
  }

  /** `create_conferences` with the swap as intended: the heavy and light
      teams, exchanged when the anchor team is light. */
  method CreateConferences(gs: seq<GameRec>) returns (west: set<string>, east: set<string>)
    ensures (west, east) == Conferences(gs)
    ensures west * east == {} && west + east == TeamsIn(gs)
  {
    var counts := CountAppearances(gs);
    west := set t | t in counts && counts[t] > 2;
    east := set t | t in counts && counts[t] <= 2;
    assert west == Heavy(gs) && east == Light(gs);
    if Anchor !in west && Anchor in east {
      west, east := east, west;
    }
    ConferencesPartition(gs);
  }

  // ---------------------------------------------------------------------
  // Team.generate_teams_from_season_of_games

  /** A team as `Team(symbol, start_date, conference)` creates it: the
      default start rating, no wins or losses, and a zero change on the
      start date. */
  ghost predicate NewTeam(t: Team, symbol: string, startDate: int, conference: Conference)
    reads t
  {
    t.Valid() && t.symbol == symbol && t.startDate == startDate && t.conference == conference &&
    t.startRating == DefaultStartRating && t.wins == 0 && t.losses == 0
  }

  /** `Team.generate_teams_from_season_of_games(games, start_date)`: one
      fresh team per key of `map_teams_to_their_games`, in insertion order,
      placed in the West when the split of the first key's games puts it
      there; `next(iter(...))` on an empty schedule raises StopIteration. */
  method GenerateTeams(gs: seq<GameRec>, startDate: int) returns (r: Result<seq<Team>>)
    ensures r.Err? <==> gs == []
    ensures r.Err? ==> r.error == StopIteration
    ensures r.Ok? ==> |r.value| == |TeamOrder(gs)| && gs != []
    ensures r.Ok? ==> forall i :: 0 <= i < |r.value| ==> fresh(r.value[i])
    ensures r.Ok? ==> forall i :: 0 <= i < |r.value| ==>
      NewTeam(r.value[i], TeamOrder(gs)[i], startDate,
              if TeamOrder(gs)[i] in Conferences(GamesFor(gs, gs[0].home)).0 then West else East)
  {
    var order, teams := MapTeamsToGames(gs);
    TeamOrderMeaning(gs);
    if order == [] {
      return Err(StopIteration);
    }
    var west, east := CreateConferences(teams[order[0]]);
    var ts := NewTeams(order, west, startDate);
    r := Ok(ts);
  }

  /** The loop of `generate_teams_from_season_of_games`: a fresh team per
      symbol, in order, in the West exactly when its symbol is in `west`. */
  method NewTeams(order: seq<string>, west: set<string>, startDate: int) returns (ts: seq<Team>)
    ensures |ts| == |order|
    ensures forall j :: 0 <= j < |ts| ==> fresh(ts[j])
    ensures forall j :: 0 <= j < |ts| ==> NewTeam(ts[j], order[j], startDate, if order[j] in west then West else East)
  {
    ts := [];
    for i := 0 to |order|
      invariant |ts| == i
      invariant forall j :: 0 <= j < i ==> fresh(ts[j])
      invariant forall j :: 0 <= j < i ==> NewTeam(ts[j], order[j], startDate, if order[j] in west then West else East)
    {
      var conference := if order[i] in west then West else East;
      var t := new Team(order[i], startDate, conference, DefaultStartRating);
      ts := ts + [t];
    }
  }

  // ---------------------------------------------------------------------
  // get_point_differentials

  /** A team's counters: points scored, points allowed, complete games
      played, and the running `points_differential`. */
  datatype PointsRow = PointsRow(scored: int, allowed: int, played: nat, differential: real)

  /** What one game adds for team `t`: `va` when it is the away team, `vh`
      when it is the home team (both for a game against itself). */
  function Side(g: GameRec, t: string, va: int, vh: int): int {
    (if g.away == t then va else 0) + (if g.home == t then vh else 0)
  }

  /** Team `t`'s points scored, points allowed and games played over the
      complete games of `gs`. */
  function Points(gs: seq<GameRec>, t: string): (int, int, nat) {
    if gs == [] then (0, 0, 0)
    else
      var p := Points(gs[..|gs| - 1], t);
      var g := gs[|gs| - 1];
      if !g.IsComplete() then p
      else
        var ap := g.awayPoints.value;
        var hp := g.homePoints.value;
        (p.0 + Side(g, t, ap, hp), p.1 + Side(g, t, hp, ap), p.2 + Side(g, t, 1, 1))
  }

  /** The average margin per game played; zero before the first game. */
  function Differential(p: (int, int, nat)): real {
    if p.2 == 0 then 0.0 else (p.0 - p.1) as real / p.2 as real
  }

  function RowOf(p: (int, int, nat)): PointsRow {
    PointsRow(p.0, p.1, p.2, Differential(p))
  }

  /** One side of a complete game: the team's points added to its scored
      points, the opponent's to its allowed points, one more game, and the
      differential recomputed. */
  function Credit(row: PointsRow, own: int, other: int): (r: PointsRow)
    ensures r.played == row.played + 1 && r.scored - r.allowed == row.scored - row.allowed + own - other
    ensures r.differential * (r.played as real) == (r.scored - r.allowed) as real
  {
    var s := row.scored + own;
    var a := row.allowed + other;
    PointsRow(s, a, row.played + 1, (s - a) as real / (row.played + 1) as real)
  }

  /** `get_point_differentials`: a zero row for the away and the home team
      of every game, then, for a complete game, each side credited with
      its own and its opponent's points. Every team of the schedule gets
      its totals over the complete games and their average margin. */
  method PointDifferentials(gs: seq<GameRec>) returns (teams: map<string, PointsRow>)
    ensures teams.Keys == TeamsIn(gs)
    ensures forall t :: t in teams ==> teams[t] == RowOf(Points(gs, t))
  {
    teams := map[];
    for i := 0 to |gs|
      invariant teams.Keys == TeamsIn(gs[..i])
      invariant forall t :: t in teams ==> teams[t] == RowOf(Points(gs[..i], t))
    {
      var g := gs[i];
      TeamsInStep(gs, i);
      ghost var before := teams;
      if g.away !in teams {
        teams := teams[g.away := PointsRow(0, 0, 0, 0.0)];
      }
      if g.home !in teams {
        teams := teams[g.home := PointsRow(0, 0, 0, 0.0)];
      }
      ghost var seeded := teams;
      assert seeded.Keys == before.Keys + {g.home, g.away};
      assert forall t :: t in seeded ==> seeded[t] == RowOf(Points(gs[..i], t)) by {
        forall t | t in seeded
          ensures seeded[t] == RowOf(Points(gs[..i], t))
        {
          if t !in before {
            PointsNew(gs[..i], t);
          }
        }
      }
      if g.IsComplete() {
        var ap, hp := g.awayPoints.value, g.homePoints.value;
        assert g.away in seeded && g.home in seeded;
        teams := teams[g.away := Credit(teams[g.away], ap, hp)];
        ghost var credited := teams;
        assert credited.Keys == seeded.Keys;
        teams := teams[g.home := Credit(teams[g.home], hp, ap)];
        assert teams.Keys == credited.Keys;
        forall t | t in teams
          ensures teams[t] == RowOf(Points(gs[..i + 1], t))
        {
          CreditGame(gs, i, t, seeded[t], credited[t], teams[t]);
        }
      } else {
        forall t | t in teams
          ensures teams[t] == RowOf(Points(gs[..i + 1], t))
        {
          PointsStep(gs, i, t);
        }
      }
    }
    assert gs[..|gs|] == gs;
  }

  /** The loop's two credits for a complete game give the counters over
      the schedule up to and including that game. */
  lemma CreditGame(gs: seq<GameRec>, i: nat, t: string, seeded: PointsRow, credited: PointsRow, final: PointsRow)
    requires i < |gs| && gs[i].IsComplete() && seeded == RowOf(Points(gs[..i], t))
    requires credited == if gs[i].away == t then Credit(seeded, gs[i].awayPoints.value, gs[i].homePoints.value) else seeded
    requires final == if gs[i].home == t then Credit(credited, gs[i].homePoints.value, gs[i].awayPoints.value) else credited
    ensures final == RowOf(Points(gs[..i + 1], t))
  {
    PointsStep(gs, i, t);
    CreditSides(Points(gs[..i], t), gs[i], t, seeded, credited, final);
  }

  /** The counters after one more game. */
  lemma PointsStep(gs: seq<GameRec>, i: nat, t: string)
    requires i < |gs|
    ensures var p := Points(gs[..i], t);
      var g := gs[i];
      Points(gs[..i + 1], t) ==
        if !g.IsComplete() then p
        else (p.0 + Side(g, t, g.awayPoints.value, g.homePoints.value),
              p.1 + Side(g, t, g.homePoints.value, g.awayPoints.value),
              p.2 + Side(g, t, 1, 1))
  {
    assert gs[..i + 1][..i] == gs[..i];
  }

  /** Crediting the away side and then the home side of a complete game,
      as the loop does, is adding the game's contribution to the totals,
      also for a game a team plays against itself. */
  lemma CreditSides(p: (int, int, nat), g: GameRec, t: string, seeded: PointsRow, credited: PointsRow, final: PointsRow)
    requires g.IsComplete() && seeded == RowOf(p)
    requires credited == if g.away == t then Credit(seeded, g.awayPoints.value, g.homePoints.value) else seeded
    requires final == if g.home == t then Credit(credited, g.homePoints.value, g.awayPoints.value) else credited
    ensures final == RowOf((p.0 + Side(g, t, g.awayPoints.value, g.homePoints.value),
                            p.1 + Side(g, t, g.homePoints.value, g.awayPoints.value),
                            p.2 + Side(g, t, 1, 1)))
  {
    var ap := g.awayPoints.value;
    var hp := g.homePoints.value;
    var q := if g.away == t then (p.0 + ap, p.1 + hp, p.2 + 1) else p;
    assert credited == RowOf(q);
  }

  /** A team that no game names has zero counters. */
  lemma {:induction false} PointsNew(gs: seq<GameRec>, t: string)
    requires t !in TeamsIn(gs)
    ensures Points(gs, t) == (0, 0, 0)
  {
    if gs != [] {
      var prefix := gs[..|gs| - 1];
      TeamsInSnoc(prefix, gs[|gs| - 1]);
      assert prefix + [gs[|gs| - 1]] == gs;
      PointsNew(prefix, t);
    }
  }

  /** Totals over a list of teams. */
  function SumMargins(gs: seq<GameRec>, ts: seq<string>): int {
    if ts == [] then 0
    else
      var p := Points(gs, ts[|ts| - 1]);
      SumMargins(gs, ts[..|ts| - 1]) + (p.0 - p.1)
  }

  function SumPlayed(gs: seq<GameRec>, ts: seq<string>): int {
    if ts == [] then 0 else SumPlayed(gs, ts[..|ts| - 1]) + Points(gs, ts[|ts| - 1]).2
  }

  function SumSide(ts: seq<string>, g: GameRec, va: int, vh: int): int {
    if ts == [] then 0 else SumSide(ts[..|ts| - 1], g, va, vh) + Side(g, ts[|ts| - 1], va, vh)
  }

  /** Over distinct teams, one game adds `va` once if its away team is
      listed and `vh` once if its home team is. */
  lemma {:induction false} SumSideTotal(ts: seq<string>, g: GameRec, va: int, vh: int)
    requires Distinct(ts)
    ensures SumSide(ts, g, va, vh) == (if g.away in ts then va else 0) + (if g.home in ts then vh else 0)
  {
    if ts != [] {
      var prefix := ts[..|ts| - 1];
      assert Distinct(prefix);
      assert forall t :: t in ts <==> t in prefix || t == ts[|ts| - 1];
      assert ts[|ts| - 1] !in prefix;
      SumSideTotal(prefix, g, va, vh);
    }
  }

  /** One more game changes the totals by its contributions. */
  lemma {:induction false} SumsStep(gs: seq<GameRec>, g: GameRec, ts: seq<string>)
    requires g.IsComplete()
    ensures SumMargins(gs + [g], ts) == SumMargins(gs, ts) +
      SumSide(ts, g, g.awayPoints.value, g.homePoints.value) - SumSide(ts, g, g.homePoints.value, g.awayPoints.value)
    ensures SumPlayed(gs + [g], ts) == SumPlayed(gs, ts) + SumSide(ts, g, 1, 1)
  {
    assert (gs + [g])[..|gs|] == gs;
    if ts != [] {
      SumsStep(gs, g, ts[..|ts| - 1]);
    }
  }

  /** An incomplete game changes no total. */
  lemma {:induction false} SumsSkip(gs: seq<GameRec>, g: GameRec, ts: seq<string>)
    requires !g.IsComplete()
    ensures SumMargins(gs + [g], ts) == SumMargins(gs, ts)
    ensures SumPlayed(gs + [g], ts) == SumPlayed(gs, ts)
  {
    assert (gs + [g])[..|gs|] == gs;
    if ts != [] {
      SumsSkip(gs, g, ts[..|ts| - 1]);
    }
  }

  /** Over every team of the schedule, listed once each, the points scored
      equal the points allowed (the margins add up to zero) and the games
      played add up to two per complete game. */
  lemma {:induction false} PointsBalance(gs: seq<GameRec>, ts: seq<string>)
    requires Distinct(ts) && forall t :: t in TeamsIn(gs) ==> t in ts
    ensures SumMargins(gs, ts) == 0
    ensures SumPlayed(gs, ts) == 2 * CompleteCount(gs)
  {
    if gs == [] {
      SumsZero(ts);
    } else {
      var prefix := gs[..|gs| - 1];
      var g := gs[|gs| - 1];
      assert prefix + [g] == gs;
      TeamsInSnoc(prefix, g);
      PointsBalance(prefix, ts);
      if g.IsComplete() {
        SumsStep(prefix, g, ts);
        SumSideTotal(ts, g, g.awayPoints.value, g.homePoints.value);
        SumSideTotal(ts, g, g.homePoints.value, g.awayPoints.value);
        SumSideTotal(ts, g, 1, 1);
      } else {
        SumsSkip(prefix, g, ts);
      }
    }
  }

  lemma {:induction false} SumsZero(ts: seq<string>)
    ensures SumMargins([], ts) == 0 && SumPlayed([], ts) == 0
  {
    if ts != [] {
      SumsZero(ts[..|ts| - 1]);
    }
  }

  /** The counters of `get_point_differentials` balance over the teams in
      the dictionary's order. */
  lemma PointsBalanceAll(gs: seq<GameRec>)
    ensures SumMargins(gs, TeamOrder(gs)) == 0
    ensures SumPlayed(gs, TeamOrder(gs)) == 2 * CompleteCount(gs)
  {
    TeamOrderMeaning(gs);
    PointsBalance(gs, TeamOrder(gs));
  }

  /** A team's games played are the complete games in its list from
      `map_teams_to_their_games`. */
  lemma {:induction false} PointsPlayed(gs: seq<GameRec>, t: string)
    ensures Points(gs, t).2 == CompleteCount(GamesFor(gs, t))
  {
    if gs != [] {
      var prefix := gs[..|gs| - 1];
      var g := gs[|gs| - 1];
      PointsPlayed(prefix, t);
      var a := GamesFor(prefix, t);
      var b := if g.home == t then [g] else [];
      var c := if g.away == t then [g] else [];
      assert GamesFor(gs, t) == a + b + c;
      CompleteCountAppend(a, b);
      CompleteCountAppend(a + b, c);
      CompleteCountSingle(g);
      assert CompleteCount(b) == if g.home == t && g.IsComplete() then 1 else 0;
      assert CompleteCount(c) == if g.away == t && g.IsComplete() then 1 else 0;
      assert Points(gs, t).2 == Points(prefix, t).2 + (if g.IsComplete() then Side(g, t, 1, 1) else 0);
    }
  }

  lemma CompleteCountSingle(g: GameRec)
    ensures CompleteCount([g]) == if g.IsComplete() then 1 else 0
  {
    assert [g][..0] == [];
  }

  lemma {:induction false} CompleteCountAppend(a: seq<GameRec>, b: seq<GameRec>)
    ensures CompleteCount(a + b) == CompleteCount(a) + CompleteCount(b)
    decreases |b|
  {
    if b != [] {
      assert (a + b)[..|a + b| - 1] == a + b[..|b| - 1];
      CompleteCountAppend(a, b[..|b| - 1]);
    } else {
      assert a + b == a;
    }
  }
}
