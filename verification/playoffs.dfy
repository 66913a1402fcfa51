/** The playoff simulation of nbaelo/elo.py: `PlayoffRound.simulate_winner`
    and the two methods of `PlayoffSimulator`. Every call to `random.random()`
    reads the next value of an injected stream `draws`, starting at position
    `pos`; each method also returns the position after its last draw. */
module Playoffs {
  import opened Wrappers
  import opened EloFormula

  /** A playoff team: its symbol and its current rating, which the playoffs
      never change. */
  datatype Contender = Contender(symbol: string, rating: real)

  /** Games won by the first team among the draws at positions pos..q-1: a
      draw below `p` is a first-team win. */
  function Wins(draws: nat -> real, p: real, pos: nat, q: nat): (w: nat)
    requires pos <= q
    ensures w <= q - pos
    decreases q - pos
  {
    if q == pos then 0 else Wins(draws, p, pos, q - 1) + (if draws(q - 1) < p then 1 else 0)
  }

  /** The loop condition of `simulate_winner` is false after the draws
      pos..q-1: both sides have at least four wins. */
  predicate Stops(draws: nat -> real, p: real, pos: nat, q: nat)
    requires pos <= q
  {
    Wins(draws, p, pos, q) >= 4 && (q - pos) - Wins(draws, p, pos, q) >= 4
  }

  /** `q` is the position at which the series loop exits. */
  ghost predicate FirstStop(draws: nat -> real, p: real, pos: nat, q: nat) {
    pos <= q && Stops(draws, p, pos, q) && forall m :: pos <= m < q ==> !Stops(draws, p, pos, m)
  }

  /** The series loop exits at all: the stream eventually gives both sides
      four wins. */
  ghost predicate SeriesEnds(draws: nat -> real, p: real, pos: nat) {
    exists q :: pos <= q && Stops(draws, p, pos, q)
  }

  /** Every series ends, whatever the win probability strictly between 0 and
      1 and wherever it starts in the stream. */
  ghost predicate Fair(draws: nat -> real) {
    forall p: real, pos: nat :: 0.0 < p < 1.0 ==> SeriesEnds(draws, p, pos)
  }

  lemma {:induction false} FirstStopBelow(draws: nat -> real, p: real, pos: nat, q: nat)
    requires pos <= q && Stops(draws, p, pos, q)
    ensures exists m :: pos <= m <= q && FirstStop(draws, p, pos, m)
    decreases q - pos
  {
    if forall m :: pos <= m < q ==> !Stops(draws, p, pos, m) {
      assert FirstStop(draws, p, pos, q);
    } else {
      var m :| pos <= m < q && Stops(draws, p, pos, m);
      FirstStopBelow(draws, p, pos, m);
    }
  }

  /** The position at which the series loop exits. */
  ghost function SeriesEnd(draws: nat -> real, p: real, pos: nat): (q: nat)
    requires SeriesEnds(draws, p, pos)
    ensures FirstStop(draws, p, pos, q)
  {
    var q0 :| pos <= q0 && Stops(draws, p, pos, q0);
    FirstStopBelow(draws, p, pos, q0);
    var q :| pos <= q <= q0 && FirstStop(draws, p, pos, q);
    q
  }

  /** The exit position is unique. */
  lemma FirstStopUnique(draws: nat -> real, p: real, pos: nat, a: nat, b: nat)
    requires FirstStop(draws, p, pos, a) && FirstStop(draws, p, pos, b)
    ensures a == b
  {
  }

  /** Who wins the series: `team1` exactly when it holds more wins when the
      loop exits, so a 4-4 series goes to `team2`. */
  ghost function SeriesWinner(team1: Contender, team2: Contender, p: real, draws: nat -> real, pos: nat): (r: Contender)
    requires SeriesEnds(draws, p, pos)
    ensures r == team1 || r == team2
  {
    var q := SeriesEnd(draws, p, pos);
    if Wins(draws, p, pos, q) > (q - pos) - Wins(draws, p, pos, q) then team1 else team2
  }

  /** When the loop exits, both sides have at least four wins and the side
      with fewer wins has exactly four: the series lasts until the slower
      side reaches four. */
  lemma SeriesScore(draws: nat -> real, p: real, pos: nat)
    requires SeriesEnds(draws, p, pos)
    ensures var q := SeriesEnd(draws, p, pos);
      var w1 := Wins(draws, p, pos, q);
      var w2 := (q - pos) - w1;
      w1 >= 4 && w2 >= 4 && (w1 == 4 || w2 == 4)
  {
    var q := SeriesEnd(draws, p, pos);
    assert q - 1 >= pos;
    assert !Stops(draws, p, pos, q - 1);
  }

  /** The series goes to `team1` exactly when it has more wins than
      `team2` at the exit, that is when `team2` stopped at four and `team1`
      went past it; whenever `team1` has exactly four, `team2` takes it. */
  lemma SeriesWinnerScore(team1: Contender, team2: Contender, p: real, draws: nat -> real, pos: nat)
    requires SeriesEnds(draws, p, pos) && team1 != team2
    ensures var q := SeriesEnd(draws, p, pos);
      var w1 := Wins(draws, p, pos, q);
      var w2 := (q - pos) - w1;
      (SeriesWinner(team1, team2, p, draws, pos) == team1 <==> w1 > w2) &&
      (SeriesWinner(team1, team2, p, draws, pos) == team1 <==> w1 > 4 && w2 == 4) &&
      (SeriesWinner(team1, team2, p, draws, pos) == team2 <==> w1 == 4)
  {
    SeriesScore(draws, p, pos);
  }

  /** `PlayoffRound(team1, team2).simulate_winner()`: the win probability of
      `team1` is fixed for the whole series; each draw below it is a
      `team1` win, any other a `team2` win, until both have four wins. */
  method SimulateWinner(e: Engine, team1: Contender, team2: Contender, draws: nat -> real, pos: nat)
    returns (winner: Contender, next: nat)
    requires SeriesEnds(draws, e.expected(team1.rating, team2.rating), pos)
    ensures next == SeriesEnd(draws, e.expected(team1.rating, team2.rating), pos)
    ensures winner == SeriesWinner(team1, team2, e.expected(team1.rating, team2.rating), draws, pos)
  {
    var team1Wins, team2Wins := 0, 0;
    var p := e.expected(team1.rating, team2.rating);
    ghost var end := SeriesEnd(draws, p, pos);
    next := pos;
    while team1Wins < 4 || team2Wins < 4
      invariant pos <= next <= end
      invariant team1Wins == Wins(draws, p, pos, next) && team2Wins == (next - pos) - team1Wins
      invariant forall m :: pos <= m < next ==> !Stops(draws, p, pos, m)
      decreases end - next
    {
      if draws(next) < p {
        team1Wins := team1Wins + 1;
      } else {
        team2Wins := team2Wins + 1;
      }
      next := next + 1;
    }
    FirstStopUnique(draws, p, pos, next, end);
    winner := if team1Wins > team2Wins then team1 else team2;
  }

  /** A stream in which `team1` wins the first four games and `team2` the
      next four, at win probability one half. */
  function FourThenFour(i: nat): real {
    if i < 4 then 0.0 else 1.0
  }

  lemma {:induction false} FourThenFourWins(q: nat)
    ensures Wins(FourThenFour, 0.5, 0, q) == if q < 4 then q else 4
  {
    if q > 0 {
      FourThenFourWins(q - 1);
    }
  }

  /** `team1` reaches four wins first (4-0), yet the series goes on to 4-4
      and `team2` is declared the winner. */
  lemma FourFourGoesToTeam2(team1: Contender, team2: Contender)
    ensures Wins(FourThenFour, 0.5, 0, 4) == 4
    ensures SeriesEnds(FourThenFour, 0.5, 0)
    ensures SeriesEnd(FourThenFour, 0.5, 0) == 8
    ensures SeriesWinner(team1, team2, 0.5, FourThenFour, 0) == team2
  {
    FourThenFourWins(4);
    FourThenFourWins(8);
    assert Stops(FourThenFour, 0.5, 0, 8);
    forall m | 0 <= m < 8
      ensures !Stops(FourThenFour, 0.5, 0, m)
    {
      FourThenFourWins(m);
    }
    assert FirstStop(FourThenFour, 0.5, 0, 8);
    FirstStopUnique(FourThenFour, 0.5, 0, 8, SeriesEnd(FourThenFour, 0.5, 0));
  }

  /** The series loop on values, from stream position `next` on: it stops
      at the first position where both sides have four wins, and the side
      with more wins then takes the series. */
  ghost function PlayOn(team1: Contender, team2: Contender, p: real, draws: nat -> real, pos: nat, next: nat): (r: (Contender, nat))
    requires SeriesEnds(draws, p, pos) && pos <= next <= SeriesEnd(draws, p, pos)
    decreases SeriesEnd(draws, p, pos) - next
  {
    if Stops(draws, p, pos, next) then
      (if Wins(draws, p, pos, next) > (next - pos) - Wins(draws, p, pos, next) then team1 else team2, next)
    else PlayOn(team1, team2, p, draws, pos, next + 1)
  }

  /** Played on from any position before the exit, the series ends at the
      exit position with the winner `SeriesWinner` names. */
  lemma {:induction false} PlayOnEnd(team1: Contender, team2: Contender, p: real, draws: nat -> real, pos: nat, next: nat)
    requires SeriesEnds(draws, p, pos) && pos <= next <= SeriesEnd(draws, p, pos)
    ensures PlayOn(team1, team2, p, draws, pos, next) ==
      (SeriesWinner(team1, team2, p, draws, pos), SeriesEnd(draws, p, pos))
    decreases SeriesEnd(draws, p, pos) - next
  {
    if !Stops(draws, p, pos, next) {
      PlayOnEnd(team1, team2, p, draws, pos, next + 1);
    }
  }

  /** One series on values: the winner and the position after it. */
  ghost function Series(e: Engine, team1: Contender, team2: Contender, draws: nat -> real, pos: nat): (r: (Contender, nat))
    requires ValidEngine(e) && Fair(draws)
    ensures r.0 == team1 || r.0 == team2
    ensures r.1 >= pos + 8
  {
    var p := e.expected(team1.rating, team2.rating);
    PlayOnEnd(team1, team2, p, draws, pos, pos);
    SeriesScore(draws, p, pos);
    PlayOn(team1, team2, p, draws, pos, pos)
  }

  /** A series on values is the one `simulate_winner` plays: it ends, and
      at the exit position with the winner `SeriesWinner` names. */
  lemma SeriesMeaning(e: Engine, team1: Contender, team2: Contender, draws: nat -> real, pos: nat)
    requires ValidEngine(e) && Fair(draws)
    ensures SeriesEnds(draws, e.expected(team1.rating, team2.rating), pos)
    ensures Series(e, team1, team2, draws, pos) ==
      (SeriesWinner(team1, team2, e.expected(team1.rating, team2.rating), draws, pos),
       SeriesEnd(draws, e.expected(team1.rating, team2.rating), pos))
  {
    PlayOnEnd(team1, team2, e.expected(team1.rating, team2.rating), draws, pos, pos);
  }

  /** `simulate_conference_brackets` on values: seeds 1-8, 2-7, 3-6 and 4-5
      play in that order, then the 1-8 winner meets the 4-5 winner, the 2-7
      winner meets the 3-6 winner, and the two survivors meet. */
  ghost function Bracket(e: Engine, seeds: seq<Contender>, draws: nat -> real, pos: nat): (r: (Contender, nat))
    requires ValidEngine(e) && Fair(draws) && |seeds| >= 8
    ensures r.0 in seeds[..8]
    ensures r.1 >= pos + 56
  {
    var (w18, p1) := Series(e, seeds[0], seeds[7], draws, pos);
    var (w27, p2) := Series(e, seeds[1], seeds[6], draws, p1);
    var (w36, p3) := Series(e, seeds[2], seeds[5], draws, p2);
    var (w45, p4) := Series(e, seeds[3], seeds[4], draws, p3);
    var (x1, p5) := Series(e, w18, w45, draws, p4);
    var (x2, p6) := Series(e, w27, w36, draws, p5);
    Series(e, x1, x2, draws, p6)
  }

  /** `PlayoffSimulator.simulate_conference_brackets(standings)`, with the
      seeds in standings order: fewer than eight seeds raise IndexError
      before any series is played. */
  method ConferenceBracket(e: Engine, seeds: seq<Contender>, draws: nat -> real, pos: nat)
    returns (r: Result<Contender>, next: nat)
    requires ValidEngine(e) && Fair(draws)
    ensures r.Err? <==> |seeds| < 8
    ensures r.Err? ==> r.error == IndexError && next == pos
    ensures r.Ok? ==> (r.value, next) == Bracket(e, seeds, draws, pos)
  {
    if |seeds| < 8 {
      return Err(IndexError), pos;
    }
    SeriesMeaning(e, seeds[0], seeds[7], draws, pos);
    var w1w8, p1 := SimulateWinner(e, seeds[0], seeds[7], draws, pos);
    SeriesMeaning(e, seeds[1], seeds[6], draws, p1);
    var w2w7, p2 := SimulateWinner(e, seeds[1], seeds[6], draws, p1);
    SeriesMeaning(e, seeds[2], seeds[5], draws, p2);
    var w3w6, p3 := SimulateWinner(e, seeds[2], seeds[5], draws, p2);
    SeriesMeaning(e, seeds[3], seeds[4], draws, p3);
    var w4w5, p4 := SimulateWinner(e, seeds[3], seeds[4], draws, p3);
    SeriesMeaning(e, w1w8, w4w5, draws, p4);
    var x1, p5 := SimulateWinner(e, w1w8, w4w5, draws, p4);
    SeriesMeaning(e, w2w7, w3w6, draws, p5);
    var x2, p6 := SimulateWinner(e, w2w7, w3w6, draws, p5);
    SeriesMeaning(e, x1, x2, draws, p6);
    var champion;
    champion, next := SimulateWinner(e, x1, x2, draws, p6);
    r := Ok(champion);
  }

  /** `simulate_playoffs` on values: each conference's bracket, West first,
      then the two conference winners meet. */
  ghost function Playoffs(e: Engine, west: seq<Contender>, east: seq<Contender>, draws: nat -> real, pos: nat): (r: (Contender, nat))
    requires ValidEngine(e) && Fair(draws) && |west| >= 8 && |east| >= 8
    ensures r.0 in west[..8] || r.0 in east[..8]
  {
    var (westWinner, p1) := Bracket(e, west, draws, pos);
    var (eastWinner, p2) := Bracket(e, east, draws, p1);
    Series(e, westWinner, eastWinner, draws, p2)
  }

  /** `simulate_playoffs` on values, errors included: an IndexError when
      either side has fewer than eight seeds, after the West's bracket when
      only the East falls short. */
  ghost function PlayoffsResult(e: Engine, west: seq<Contender>, east: seq<Contender>, draws: nat -> real, pos: nat): (r: (Result<Contender>, nat))
    requires ValidEngine(e) && Fair(draws)
    ensures r.0.Err? <==> |west| < 8 || |east| < 8
    ensures r.0.Err? ==> r.0.error == IndexError
    ensures r.0.Ok? ==> r.0.value in west[..8] || r.0.value in east[..8]
    ensures r.1 >= pos
  {
    if |west| < 8 then (Err(IndexError), pos)
    else if |east| < 8 then (Err(IndexError), Bracket(e, west, draws, pos).1)
    else
      var (champion, next) := Playoffs(e, west, east, draws, pos);
      assert next >= pos by {
        var p1 := Bracket(e, west, draws, pos).1;
        var p2 := Bracket(e, east, draws, p1).1;
      }
      (Ok(champion), next)
  }

  /** `PlayoffSimulator.simulate_playoffs()`: the champion; an IndexError
      when either conference has fewer than eight teams, the West's bracket
      having been played first when only the East falls short. */
  method SimulatePlayoffs(e: Engine, west: seq<Contender>, east: seq<Contender>, draws: nat -> real, pos: nat)
    returns (r: Result<Contender>, next: nat)
    requires ValidEngine(e) && Fair(draws)
    ensures r.Err? <==> |west| < 8 || |east| < 8
    ensures r.Err? ==> r.error == IndexError
    ensures |west| < 8 ==> next == pos
    ensures |west| >= 8 && |east| < 8 ==> next == Bracket(e, west, draws, pos).1
    ensures r.Ok? ==> (r.value, next) == Playoffs(e, west, east, draws, pos)
    ensures (r, next) == PlayoffsResult(e, west, east, draws, pos)
  {
    var westWinner, p1 := ConferenceBracket(e, west, draws, pos);
    if westWinner.Err? {
      return westWinner, p1;
    }
    var eastWinner, p2 := ConferenceBracket(e, east, draws, p1);
    if eastWinner.Err? {
      return eastWinner, p2;
    }
    SeriesMeaning(e, westWinner.value, eastWinner.value, draws, p2);
    var champion;
    champion, next := SimulateWinner(e, westWinner.value, eastWinner.value, draws, p2);
    r := Ok(champion);
  }
}
