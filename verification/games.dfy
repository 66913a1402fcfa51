/** A game of the schedule (class Game of nbaelo/elo.py) and the module-level
    helpers on games. A game is complete when both scores are present;
    simulated games get the placeholder scores -1 and -2. */
module Games {
  import opened Wrappers
  import opened EloFormula

  /** A game's state as a value. */
  datatype GameRec = GameRec(home: string, away: string, date: int,
                             homePoints: Option<int>, awayPoints: Option<int>,
                             isSimulated: bool)
  {
    /** `Game.is_complete`: both scores present. */
    predicate IsComplete() { homePoints.Some? && awayPoints.Some? }
  }

  /** The module-level `is_game_complete`, which tests for EITHER score. */
  predicate IsGameComplete(g: GameRec) { g.homePoints.Some? || g.awayPoints.Some? }

  /** `is_game_complete` agrees with `Game.is_complete` exactly on games whose
      scores are both present or both absent; on a game with one score it
      says complete where the method says incomplete. */
  lemma IsGameCompleteDiffers(g: GameRec)
    ensures IsGameComplete(g) == g.IsComplete() <==> (g.homePoints.Some? == g.awayPoints.Some?)
    ensures g.IsComplete() ==> IsGameComplete(g)
  {
  }

  /** `Game.winner`: the home team iff it scored more; comparing a missing
      score raises a TypeError. */
  function WinnerOf(g: GameRec): (r: Result<string>)
    ensures r.Ok? <==> g.IsComplete()
    ensures r.Err? ==> r.error == TypeError
    ensures r.Ok? ==> (r.value == g.home <==> g.homePoints.value > g.awayPoints.value || g.home == g.away)
    ensures r.Ok? ==> r.value == g.home || r.value == g.away
  {
    if !g.IsComplete() then Err(TypeError)
    else if g.homePoints.value > g.awayPoints.value then Ok(g.home)
    else Ok(g.away)
  }

  /** `Game.loser`: the team that is not the winner. */
  function LoserOf(g: GameRec): (r: Result<string>)
    ensures r.Ok? <==> g.IsComplete()
    ensures r.Err? ==> r.error == TypeError
    ensures r.Ok? && g.home != g.away ==> r.value != WinnerOf(g).value
    ensures r.Ok? ==> {r.value, WinnerOf(g).value} == {g.home, g.away}
  {
    match WinnerOf(g)
    case Err(e) => Err(e)
    case Ok(w) => Ok(if w == g.home then g.away else g.home)
  }

  /** The placeholder scores `Game.simulate` writes: (-1, -2) when the home
      team wins the draw, (-2, -1) otherwise. */
  function Simulated(g: GameRec, homeWins: bool): (r: GameRec)
    ensures r.IsComplete() && r.isSimulated
    ensures r.home == g.home && r.away == g.away && r.date == g.date
    ensures (r.homePoints.value, r.awayPoints.value) == (-1, -2) || (r.homePoints.value, r.awayPoints.value) == (-2, -1)
    ensures WinnerOf(r) == Ok(if homeWins then g.home else g.away)
  {
    g.(homePoints := Some(if homeWins then -1 else -2),
       awayPoints := Some(if homeWins then -2 else -1),
       isSimulated := true)
  }

  class Game {
    const home: string
    const away: string
    const date: int
    var homePoints: Option<int>
    var awayPoints: Option<int>
    var isSimulated: bool

    constructor (home: string, away: string, date: int, homePoints: Option<int>, awayPoints: Option<int>)
      ensures Rec() == GameRec(home, away, date, homePoints, awayPoints, false)
    {
      this.home := home;
      this.away := away;
      this.date := date;
      this.homePoints := homePoints;
      this.awayPoints := awayPoints;
      isSimulated := false;
    }

    function Rec(): GameRec
      reads this
    {
      GameRec(home, away, date, homePoints, awayPoints, isSimulated)
    }

    predicate IsComplete()
      reads this
    {
      Rec().IsComplete()
    }

    /** `Game.simulate(home_rating, away_rating)`, with `draw` standing for
        `random.random()`: a complete game raises ValueError and is left
        alone; otherwise the home team wins iff the draw is below its win
        expectancy. */
    method Simulate(e: Engine, homeRating: real, awayRating: real, draw: real) returns (r: Result<()>)
      modifies this
      ensures r.Err? <==> old(IsComplete())
      ensures r.Err? ==> r.error == ValueError && Rec() == old(Rec())
      ensures r.Ok? ==> Rec() == Simulated(old(Rec()), draw < e.expected(homeRating, awayRating))
    {
      if IsComplete() {
        return Err(ValueError);
      }
      var homeWinProbability := e.expected(homeRating, awayRating);
      if draw < homeWinProbability {
        homePoints := Some(-1);
        awayPoints := Some(-2);
      } else {
        homePoints := Some(-2);
        awayPoints := Some(-1);
      }
      isSimulated := true;
      r := Ok(());
    }
  }

  /** The records of a list of games, in order. */
  function RecsOf(gs: seq<Game>): (r: seq<GameRec>)
    reads gs
    ensures |r| == |gs|
    ensures forall i :: 0 <= i < |gs| ==> r[i] == gs[i].Rec()
  {
    if gs == [] then [] else [gs[0].Rec()] + RecsOf(gs[1..])
  }

  predicate DistinctGames(gs: seq<Game>) {
    forall i, j :: 0 <= i < j < |gs| ==> gs[i] != gs[j]
  }

  /** `Game.from_list_of_games`: a fresh game per input game, with the same
      teams, date and scores and the simulated flag cleared. */
  method FromListOfGames(gs: seq<GameRec>) returns (copies: seq<Game>)
    ensures |copies| == |gs| && DistinctGames(copies)
    ensures forall i :: 0 <= i < |gs| ==> fresh(copies[i])
    ensures forall i :: 0 <= i < |gs| ==> copies[i].Rec() == gs[i].(isSimulated := false)
  {
    copies := [];
    for i := 0 to |gs|
      invariant |copies| == i && DistinctGames(copies)
      invariant forall j :: 0 <= j < i ==> fresh(copies[j])
      invariant forall j :: 0 <= j < i ==> copies[j].Rec() == gs[j].(isSimulated := false)
    {
      var g := new Game(gs[i].home, gs[i].away, gs[i].date, gs[i].homePoints, gs[i].awayPoints);
      copies := copies + [g];
    }
  }
}
