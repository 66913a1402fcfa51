/** `Simulator` of nbaelo/elo.py: many simulated seasons from one list of
    teams and one list of games, and the playoff, top-seed and championship
    shares over them. Every trial gets fresh copies of the games, but all
    trials share the same `Team` objects, so each trial replays the season
    on the ratings the previous trial left behind. */
module Simulation {
  import opened Wrappers
  import opened Ratings
  import opened EloFormula
  import opened Games
  import opened League
  import opened Sorting
  import opened Standings
  import opened Seasons
  import opened Playoffs
  import opened Tallies

  /** The sort key of a game record, agreeing with `GameKey` on games. */
  function RecKey(g: GameRec): Key { (g.date, 0) }

  /** The records of the copies `from_list_of_games` makes. */
  function Cleared(rs: seq<GameRec>): (r: seq<GameRec>)
    ensures |r| == |rs|
    ensures forall i :: 0 <= i < |rs| ==> r[i] == rs[i].(isSimulated := false)
  {
    seq(|rs|, i requires 0 <= i < |rs| => rs[i].(isSimulated := false))
  }

  /** Sorting games by date and then taking their records gives the records
      sorted by date. */
  lemma {:induction false} RecsOfInsert(x: Game, s: seq<Game>)
    ensures RecsOf(InsertBy(x, s, GameKey)) == InsertBy(x.Rec(), RecsOf(s), RecKey)
  {
    if s == [] || KeyLe(GameKey(x), GameKey(s[0])) {
      assert RecsOf([x] + s) == [x.Rec()] + RecsOf(s);
    } else {
      RecsOfInsert(x, s[1..]);
      assert RecsOf(s) == [s[0].Rec()] + RecsOf(s[1..]);
      assert RecsOf([s[0]] + InsertBy(x, s[1..], GameKey)) == [s[0].Rec()] + RecsOf(InsertBy(x, s[1..], GameKey));
    }
  }

  lemma {:induction false} RecsOfSort(s: seq<Game>)
    ensures RecsOf(SortBy(s, GameKey)) == SortBy(RecsOf(s), RecKey)
  {
    if s != [] {
      RecsOfSort(s[1..]);
      RecsOfInsert(s[0], SortBy(s[1..], GameKey));
      assert RecsOf(s) == [s[0].Rec()] + RecsOf(s[1..]);
    }
  }

  lemma {:induction false} DistinctCount(s: seq<Game>, x: Game)
    requires DistinctGames(s)
    ensures multiset(s)[x] <= 1
  {
    if s != [] {
      assert s == [s[0]] + s[1..];
      assert DistinctGames(s[1..]);
      DistinctCount(s[1..], x);
      if s[0] == x {
        assert x !in s[1..];
      }
    }
  }

  /** A reordering of distinct games is distinct. */
  lemma DistinctPermutation(s: seq<Game>, t: seq<Game>)
    requires DistinctGames(s) && multiset(s) == multiset(t)
    ensures DistinctGames(t)
  {
    forall i, j | 0 <= i < j < |t|
      ensures t[i] != t[j]
    {
      if t[i] == t[j] {
        assert t == t[..j] + t[j..];
        assert t[i] == t[..j][i];
        assert t[j] == t[j..][0];
        assert multiset(t)[t[i]] >= 2;
        DistinctCount(s, t[i]);
      }
    }
  }

  /** A reordering keeps every element of the original. */
  lemma Members(s: seq<Game>, t: seq<Game>)
    requires multiset(s) == multiset(t)
    ensures forall i :: 0 <= i < |t| ==> t[i] in s
  {
    forall i | 0 <= i < |t|
      ensures t[i] in s
    {
      assert t[i] in multiset(t);
    }
  }

  /** Copies of games that name teams of `roster` name teams of `roster`,
      in any order. */
  lemma CopiesCovered(gs: seq<GameRec>, copies: seq<Game>, t: seq<Game>, roster: map<string, Team>)
    requires |copies| == |gs|
    requires forall j :: 0 <= j < |gs| ==> copies[j].home == gs[j].home && copies[j].away == gs[j].away
    requires forall j :: 0 <= j < |gs| ==> gs[j].home in roster && gs[j].away in roster
    requires forall i :: 0 <= i < |t| ==> t[i] in copies
    ensures forall i :: 0 <= i < |t| ==> t[i].home in roster && t[i].away in roster
  {
    forall i | 0 <= i < |t|
      ensures t[i].home in roster && t[i].away in roster
    {
      var j :| 0 <= j < |copies| && copies[j] == t[i];
    }
  }

  /** The records of the date-sorted copies are the cleared records of the
      originals, sorted by date. */
  lemma SortedRecs(gs: seq<GameRec>, copies: seq<Game>)
    requires |copies| == |gs|
    requires forall j :: 0 <= j < |gs| ==> copies[j].Rec() == gs[j].(isSimulated := false)
    ensures RecsOf(SortBy(copies, GameKey)) == SortBy(Cleared(gs), RecKey)
  {
    assert RecsOf(copies) == Cleared(gs);
    RecsOfSort(copies);
  }

  /** A season built over copies of `gs` is well shaped and holds the
      copies' records in date order. */
  lemma SeasonOfCopies(s: Season, gs: seq<GameRec>, copies: seq<Game>, roster: map<string, Team>)
    requires s.teams == roster && forall k :: k in roster ==> roster[k].symbol == k
    requires s.games == SortBy(copies, GameKey) && multiset(s.games) == multiset(copies)
    requires |copies| == |gs| && DistinctGames(copies)
    requires forall j :: 0 <= j < |gs| ==> copies[j].Rec() == gs[j].(isSimulated := false)
    requires forall j :: 0 <= j < |gs| ==> gs[j].home in roster && gs[j].away in roster
    ensures s.Shape() && s.Recs() == SortBy(Cleared(gs), RecKey)
    ensures forall i :: 0 <= i < |s.games| ==> s.games[i] in copies
  {
    SortedRecs(gs, copies);
    Members(copies, s.games);
    DistinctPermutation(copies, s.games);
    CopiesCovered(gs, copies, s.games, roster);
  }

  /** `simulate_many_seasons(trials)` on values: every trial replays the
      schedule on the ratings the previous trial left behind, then simulates
      its open games with those ratings; the result is the final ratings,
      each trial's simulated schedule, and the stream position reached. */
  ghost function Trials(l: League, e: Engine, sched: seq<GameRec>, draws: nat -> real, pos: nat, n: nat)
    : (r: (League, seq<seq<GameRec>>, nat))
    requires Covers(l, sched)
    ensures r.0.Keys == l.Keys && |r.1| == n && r.2 >= pos
  {
    if n == 0 then (l, [], pos)
    else
      var (prev, outs, p) := Trials(l, e, sched, draws, pos, n - 1);
      assert Covers(prev, sched);
      var played := Replay(prev, e, sched, None);
      (played, outs + [SimulateOpen(sched, e, played, draws, p)], p + OpenCount(sched))
  }

  /** Trial `n + 1` replays the schedule on the ratings trial `n` left. */
  lemma TrialsNext(l: League, e: Engine, sched: seq<GameRec>, draws: nat -> real, pos: nat, n: nat)
    requires Covers(l, sched)
    ensures Covers(Trials(l, e, sched, draws, pos, n).0, sched)
    ensures Trials(l, e, sched, draws, pos, n + 1).0 == Replay(Trials(l, e, sched, draws, pos, n).0, e, sched, None)
    ensures Trials(l, e, sched, draws, pos, n + 1).1 ==
      Trials(l, e, sched, draws, pos, n).1 +
      [SimulateOpen(sched, e, Trials(l, e, sched, draws, pos, n + 1).0, draws, Trials(l, e, sched, draws, pos, n).2)]
    ensures Trials(l, e, sched, draws, pos, n + 1).2 == Trials(l, e, sched, draws, pos, n).2 + OpenCount(sched)
  {
  }

  /** Keeping one more season extends what the kept seasons hold. */
  lemma KeptAppend(ss: seq<Season>, n0: nat, outs: seq<seq<GameRec>>, s: Season)
    requires Kept(ss, n0, outs)
    ensures Kept(ss + [s], n0, outs + [s.Recs()])
  {
    assert forall k :: 0 <= k < |ss| ==> (ss + [s])[k] == ss[k];
  }

  /** Each trial draws once per open game of the schedule. */
  lemma {:induction false} TrialsDraws(l: League, e: Engine, sched: seq<GameRec>, draws: nat -> real, pos: nat, n: nat)
    requires Covers(l, sched)
    ensures Trials(l, e, sched, draws, pos, n).2 == pos + n * OpenCount(sched)
  {
    if n > 0 {
      TrialsDraws(l, e, sched, draws, pos, n - 1);
      assert (n - 1) * OpenCount(sched) + OpenCount(sched) == n * OpenCount(sched);
    }
  }

  /** Because all trials share the same team objects, every trial adds the
      schedule's wins and losses again: after `n` trials each team holds
      `n` times the schedule's record on top of its own. */
  lemma {:induction false} TrialsRecords(l: League, e: Engine, sched: seq<GameRec>, draws: nat -> real, pos: nat, n: nat, t: string)
    requires Covers(l, sched) && t in l
    ensures Trials(l, e, sched, draws, pos, n).0[t].wins == l[t].wins + n * ResultsIn(t, sched, None, true)
    ensures Trials(l, e, sched, draws, pos, n).0[t].losses == l[t].losses + n * ResultsIn(t, sched, None, false)
  {
    if n > 0 {
      TrialsRecords(l, e, sched, draws, pos, n - 1, t);
      ReplayRecords(Trials(l, e, sched, draws, pos, n - 1).0, e, sched, None, t);
      var w, d := ResultsIn(t, sched, None, true), ResultsIn(t, sched, None, false);
      assert (n - 1) * w + w == n * w && (n - 1) * d + d == n * d;
    }
  }

  /** Every trial's season ends complete, each game keeping its teams and
      date and every game already played keeping its score. */
  lemma TrialsComplete(l: League, e: Engine, sched: seq<GameRec>, draws: nat -> real, pos: nat, n: nat, k: nat)
    requires Covers(l, sched) && k < n
    ensures var out := Trials(l, e, sched, draws, pos, n).1[k];
      |out| == |sched| &&
      (forall i :: 0 <= i < |sched| ==> out[i].IsComplete()) &&
      (forall i :: 0 <= i < |sched| ==>
        out[i].home == sched[i].home && out[i].away == sched[i].away && out[i].date == sched[i].date) &&
      (forall i :: 0 <= i < |sched| && sched[i].IsComplete() ==> out[i] == sched[i])
    decreases n
  {
    var (prev, outs, p) := Trials(l, e, sched, draws, pos, n - 1);
    if k < n - 1 {
      TrialsComplete(l, e, sched, draws, pos, n - 1, k);
    } else {
      SimulateOpenEffect(sched, e, Replay(prev, e, sched, None), draws, p);
    }
  }

  /** The game objects of the seasons. */
  ghost function GamesOf(ss: seq<Season>): (r: set<Game>)
    ensures forall i, j :: 0 <= i < |ss| && 0 <= j < |ss[i].games| ==> ss[i].games[j] in r
  {
    if ss == [] then {}
    else
      var last := ss[|ss| - 1].games;
      GamesOf(ss[..|ss| - 1]) + set i | 0 <= i < |last| :: last[i]
  }

  /** The standings of each season, in order. */
  ghost function Tables(ss: seq<Season>): (r: seq<SeasonTable>)
    requires forall i :: 0 <= i < |ss| ==> ss[i].Shape()
    reads GamesOf(ss)
    ensures |r| == |ss|
  {
    if ss == [] then []
    else
      var prefix := ss[..|ss| - 1];
      assert forall i :: 0 <= i < |prefix| ==> prefix[i] == ss[i];
      Tables(prefix) + [ss[|ss| - 1].Standings()]
  }

  /** Entry `i` of the tables is the standings of season `i`. */
  lemma {:induction false} TablesAt(ss: seq<Season>, i: nat)
    requires forall i :: 0 <= i < |ss| ==> ss[i].Shape()
    requires i < |ss|
    ensures Tables(ss)[i] == ss[i].Standings()
  {
    var prefix := ss[..|ss| - 1];
    assert forall i :: 0 <= i < |prefix| ==> prefix[i] == ss[i];
    assert Tables(ss) == Tables(prefix) + [ss[|ss| - 1].Standings()];
    if i < |ss| - 1 {
      TablesAt(prefix, i);
    }
  }

  /** The tables do not change while the seasons' games do not. */
  twostate lemma {:induction false} TablesKept(ss: seq<Season>)
    requires forall i :: 0 <= i < |ss| ==> ss[i].Shape() && unchanged(ss[i].games)
    ensures old(Tables(ss)) == Tables(ss)
  {
    if ss != [] {
      var prefix := ss[..|ss| - 1];
      assert forall i :: 0 <= i < |prefix| ==> prefix[i] == ss[i];
      TablesKept(prefix);
    }
  }

  /** A season's standings do not change while its games do not. */
  twostate lemma StandingsKept(s: Season)
    requires s.Shape() && unchanged(s.games)
    ensures old(s.Standings()) == s.Standings()
  {
    assert old(s.Recs()) == s.Recs();
  }

  /** A table per season, each that season's standings in the earlier
      state, is `Tables` while the seasons' games do not change. */
  twostate lemma TablesOfOld(ss: seq<Season>, new sts: seq<SeasonTable>)
    requires forall i :: 0 <= i < |ss| ==> ss[i].Shape() && unchanged(ss[i].games)
    requires |sts| == |ss| && forall i :: 0 <= i < |ss| ==> sts[i] == old(ss[i].Standings())
    ensures sts == Tables(ss)
  {
    forall i | 0 <= i < |ss|
      ensures sts[i] == ss[i].Standings()
    {
      StandingsKept(ss[i]);
    }
    TablesOf(ss, sts);
  }

  /** Seasons `ss` from index `n0` on hold the simulated schedules `outs`,
      in order. */
  ghost predicate Kept(ss: seq<Season>, n0: nat, outs: seq<seq<GameRec>>)
    reads GamesOf(ss)
  {
    |ss| == n0 + |outs| &&
    forall k :: 0 <= k < |outs| ==> ss[n0 + k].Recs() == outs[k]
  }

  /** Every season of `ss` has the roster `roster` and is well shaped. */
  ghost predicate Shaped(ss: seq<Season>, roster: map<string, Team>) {
    forall i :: 0 <= i < |ss| ==> ss[i].teams == roster && ss[i].Shape()
  }

  lemma ShapedAppend(ss: seq<Season>, roster: map<string, Team>, s: Season)
    requires Shaped(ss, roster) && s.teams == roster && s.Shape()
    ensures Shaped(ss + [s], roster)
  {
    assert forall i :: 0 <= i < |ss| ==> (ss + [s])[i] == ss[i];
  }

  /** A table per season, each that season's standings, is `Tables`. */
  lemma TablesOf(ss: seq<Season>, sts: seq<SeasonTable>)
    requires forall i :: 0 <= i < |ss| ==> ss[i].Shape()
    requires |sts| == |ss| && forall i :: 0 <= i < |ss| ==> sts[i] == ss[i].Standings()
    ensures sts == Tables(ss)
  {
    forall i | 0 <= i < |ss|
      ensures sts[i] == Tables(ss)[i]
    {
      TablesAt(ss, i);
    }
  }

  /** Every team in the standings of seasons over `roster` has a rating
      when the ratings cover the roster. */
  lemma TablesRated(ss: seq<Season>, roster: map<string, Team>, ratings: map<string, real>)
    requires Shaped(ss, roster) && ratings.Keys == roster.Keys
    ensures forall i :: 0 <= i < |ss| ==> Rated(Tables(ss)[i], ratings)
  {
    forall i | 0 <= i < |ss|
      ensures Rated(Tables(ss)[i], ratings)
    {
      TablesAt(ss, i);
      StandingsTeams(ss[i].Recs(), ss[i].Conferences());
    }
  }

  class Simulator {
    const year: int
    const teams: seq<Team>
    const games: seq<GameRec>
    /** The teams by symbol; every created season gets this roster. */
    const roster: map<string, Team>
    var simulatedSeasons: seq<Season>

    /** `Simulator(year, teams, games)` with no simulated season yet. */
    constructor (year: int, teams: seq<Team>, games: seq<Game>)
      ensures this.year == year && this.teams == teams && this.games == RecsOf(games)
      ensures roster == TeamsBySymbol(teams) && simulatedSeasons == []
    {
      this.year := year;
      this.teams := teams;
      this.games := RecsOf(games);
      roster := TeamsBySymbol(teams);
      simulatedSeasons := [];
    }

    /** The shared teams' state, by symbol. */
    function Ratings(): League
      reads roster.Values
    {
      RatingsOf(roster)
    }

    /** The roster indexes the teams by symbol, and every game names two
        teams of it. */
    ghost predicate Covered() {
      roster == TeamsBySymbol(teams) &&
      forall i :: 0 <= i < |games| ==> games[i].home in roster && games[i].away in roster
    }

    /** Every simulated season shares the roster and is well shaped. */
    ghost predicate SeasonsShaped()
      reads this
    {
      Shaped(simulatedSeasons, roster)
    }

    /** Every game names two teams of the roster, every team of the roster
        is well formed, and so is every simulated season. */
    ghost predicate Valid()
      reads this, roster.Values
    {
      Covered() && TeamsValid(roster) && SeasonsShaped()
    }

    /** The records every created season starts from: the copies' records
        in date order. */
    ghost function Schedule(): seq<GameRec> {
      SortBy(Cleared(games), RecKey)
    }

    /** The schedule names teams of the roster only. */
    lemma ScheduleCovered()
      requires Covered()
      ensures Covers(Ratings(), Schedule())
    {
      var cleared := Cleared(games);
      forall i | 0 <= i < |Schedule()|
        ensures Schedule()[i].home in Ratings() && Schedule()[i].away in Ratings()
      {
        assert Schedule()[i] in multiset(cleared);
        var j :| 0 <= j < |cleared| && cleared[j] == Schedule()[i];
      }
    }

    /** `create_season()`: a new season over fresh copies of the games. */
    method CreateSeason() returns (s: Season)
      requires Valid()
      ensures fresh(s) && s.year == year && s.teams == roster
      ensures forall i :: 0 <= i < |s.games| ==> fresh(s.games[i])
      ensures s.Valid() && s.Recs() == Schedule()
    {
      var copies := FromListOfGames(games);
      s := new Season(year, teams, copies);
      SeasonOfCopies(s, games, copies, roster);
    }

    /** One trial of `simulate_many_seasons`: a new season, played through
        on the shared teams, then its open games simulated. */
    method RunTrial(e: Engine, draws: nat -> real, pos: nat) returns (s: Season, next: nat)
      requires Valid()
      modifies roster.Values
      ensures Valid() && fresh(s) && s.year == year && s.teams == roster && s.Shape()
      ensures Covers(old(Ratings()), Schedule()) && Ratings() == Replay(old(Ratings()), e, Schedule(), None)
      ensures s.Recs() == SimulateOpen(Schedule(), e, Ratings(), draws, pos)
      ensures next == pos + OpenCount(Schedule()) && s.IsSeasonComplete()
    {
      s := CreateSeason();
      assert s.Ratings() == Ratings();
      assert Covers(s.Ratings(), s.Recs());
      s.PlayThroughSeason(e, None);
      next := s.SimulateRemaining(e, draws, pos);
      assert s.Ratings() == Ratings();
    }

    /** The shared teams hold ratings `l`, and the seasons kept from index
        `n0` on hold the simulated schedules `outs`. */
    ghost predicate Trialing(l: League, n0: nat, outs: seq<seq<GameRec>>)
      reads this, roster.Values, GamesOf(simulatedSeasons)
    {
      Valid() && Covers(l, Schedule()) && Ratings() == l && Kept(simulatedSeasons, n0, outs)
    }

    /** One pass of the loop of `simulate_many_seasons`: the shared teams
        replay the schedule and the new season, its open games simulated,
        is kept. */
    method Trial(ghost l: League, ghost n0: nat, ghost outs: seq<seq<GameRec>>, e: Engine, draws: nat -> real, pos: nat)
      returns (next: nat)
      requires Trialing(l, n0, outs)
      modifies this, roster.Values
      ensures Trialing(Replay(l, e, Schedule(), None), n0,
                       outs + [SimulateOpen(Schedule(), e, Replay(l, e, Schedule(), None), draws, pos)])
      ensures next == pos + OpenCount(Schedule())
      ensures simulatedSeasons[..n0] == old(simulatedSeasons[..n0])
    {
      var s;
      s, next := RunTrial(e, draws, pos);
      ghost var played := Replay(l, e, Schedule(), None);
      Keep(s, played, n0, outs, SimulateOpen(Schedule(), e, played, draws, pos));
    }

    /** `simulated_seasons.append(season)`. */
    method Keep(s: Season, ghost l: League, ghost n0: nat, ghost outs: seq<seq<GameRec>>, ghost out: seq<GameRec>)
      requires Trialing(l, n0, outs) && s.teams == roster && s.Shape() && s.Recs() == out
      modifies this
      ensures Trialing(l, n0, outs + [out])
      ensures simulatedSeasons == old(simulatedSeasons) + [s]
    {
      ghost var ss := simulatedSeasons;
      KeptAppend(ss, n0, outs, s);
      ShapedAppend(ss, roster, s);
      simulatedSeasons := simulatedSeasons + [s];
    }

    /** The state of `simulate_many_seasons` after `i` trials that started
        from ratings `l0` with `n0` seasons already kept. */
    ghost predicate Trialed(l0: League, e: Engine, draws: nat -> real, pos: nat, n0: nat, i: nat, next: nat)
      reads this, roster.Values, GamesOf(simulatedSeasons)
    {
      Covers(l0, Schedule()) &&
      Trialing(Trials(l0, e, Schedule(), draws, pos, i).0, n0, Trials(l0, e, Schedule(), draws, pos, i).1) &&
      next == Trials(l0, e, Schedule(), draws, pos, i).2
    }

    /** One pass of the loop of `simulate_many_seasons`. */
    method Step(ghost l0: League, e: Engine, draws: nat -> real, ghost pos: nat, ghost n0: nat, ghost i: nat, next: nat)
      returns (next': nat)
      requires Trialed(l0, e, draws, pos, n0, i, next)
      modifies this, roster.Values
      ensures Trialed(l0, e, draws, pos, n0, i + 1, next')
      ensures simulatedSeasons[..n0] == old(simulatedSeasons[..n0])
    {
      TrialsNext(l0, e, Schedule(), draws, pos, i);
      ghost var t := Trials(l0, e, Schedule(), draws, pos, i);
      next' := Trial(t.0, n0, t.1, e, draws, next);
    }

    /** `simulate_many_seasons(trials)`: each trial creates a season over
        fresh copies of the games, plays it through on the shared teams,
        simulates its open games and keeps it. */
    method SimulateManySeasons(trials: nat, e: Engine, draws: nat -> real, pos: nat) returns (next: nat)
      requires Valid()
      modifies this, roster.Values
      ensures Valid() && Covers(old(Ratings()), Schedule())
      ensures |simulatedSeasons| == |old(simulatedSeasons)| + trials
      ensures simulatedSeasons[..|old(simulatedSeasons)|] == old(simulatedSeasons)
      ensures Ratings() == Trials(old(Ratings()), e, Schedule(), draws, pos, trials).0
      ensures next == pos + trials * OpenCount(Schedule())
      ensures forall k :: 0 <= k < trials ==>
        simulatedSeasons[|old(simulatedSeasons)| + k].Recs() == Trials(old(Ratings()), e, Schedule(), draws, pos, trials).1[k]
    {
      ghost var l0, n0 := Ratings(), |simulatedSeasons|;
      ScheduleCovered();
      next := pos;
      for i := 0 to trials
        invariant Trialed(l0, e, draws, pos, n0, i, next) && simulatedSeasons[..n0] == old(simulatedSeasons)
      {
        next := Step(l0, e, draws, pos, n0, i, next);
      }
      TrialsDraws(l0, e, Schedule(), draws, pos, trials);
    }

    /** The symbols of `teams`, in order. */
    function Symbols(): seq<string> {
      seq(|teams|, i requires 0 <= i < |teams| => teams[i].symbol)
    }

    /** Each shared team's current rating, by symbol. */
    function Current(): (r: map<string, real>)
      reads roster.Values
      ensures r.Keys == roster.Keys
    {
      map k | k in roster :: roster[k].CurrentRating()
    }

    /** The standings of every kept season, in order. */
    method AllStandings() returns (sts: seq<SeasonTable>)
      requires SeasonsShaped()
      ensures sts == Tables(simulatedSeasons)
    {
      sts := [];
      for i := 0 to |simulatedSeasons|
        invariant |sts| == i
        invariant forall j :: 0 <= j < i ==> sts[j] == old(simulatedSeasons[j].Standings())
      {
        var st := simulatedSeasons[i].CurrentStandings();
        StandingsKept(simulatedSeasons[i]);
        sts := sts + [st];
      }
      TablesOfOld(simulatedSeasons, sts);
    }

    /** `playoff_probabilities`: for each team, the share of the kept
        seasons in which it is among the first eight of its side. */
    method PlayoffProbabilities() returns (r: Result<map<string, real>>)
      requires SeasonsShaped()
      ensures r == SharesOf(CountAll(ZeroCounts(Symbols()), PlayoffPicksAll(Tables(simulatedSeasons))),
                            |simulatedSeasons|)
    {
      var sts := AllStandings();
      label Read:
      var counted := CountPlayoffPicks(Symbols(), sts);
      TablesKept@Read(simulatedSeasons);
      r := SharesOf(counted, |sts|);
    }

    /** `top_seed_probabilities`: for each team, the share of the kept
        seasons in which it leads its side. */
    method TopSeedProbabilities() returns (r: Result<map<string, real>>)
      requires SeasonsShaped()
      ensures r == SharesOf(CountAll(ZeroCounts(Symbols()), TopSeedPicksAll(Tables(simulatedSeasons))),
                            |simulatedSeasons|)
    {
      var sts := AllStandings();
      label Read:
      var counted := CountTopSeedPicks(Symbols(), sts);
      TablesKept@Read(simulatedSeasons);
      r := SharesOf(counted, |sts|);
    }

    /** `get_championship_probabilities`: for each team, the share of the
        kept seasons whose playoffs, seeded from the season's standings with
        the teams' current ratings, it wins. */
    method ChampionshipProbabilities(e: Engine, draws: nat -> real, pos: nat)
      returns (r: Result<map<string, real>>, next: nat)
      requires SeasonsShaped() && ValidEngine(e) && Fair(draws)
      ensures forall i :: 0 <= i < |simulatedSeasons| ==> Rated(Tables(simulatedSeasons)[i], Current())
      ensures (r, next) ==
        var (counted, p) := ChampionTally(e, Current(), ZeroCounts(Symbols()), Tables(simulatedSeasons), draws, pos);
        (SharesOf(counted, |simulatedSeasons|), p)
    {
      var sts := AllStandings();
      TablesRated(simulatedSeasons, roster, Current());
      label Read:
      var counted;
      counted, next := CountChampions(e, Current(), Symbols(), sts, draws, pos);
      TablesKept@Read(simulatedSeasons);
      assert Current() == old@Read(Current());
      r := SharesOf(counted, |sts|);
    }
  }
}
