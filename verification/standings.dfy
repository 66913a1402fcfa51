/** `Season.current_standings` (nbaelo/elo.py) on values: a win-loss record
    per team from the complete games, in first-appearance order, split by
    conference and each part sorted by `(wins, losses)` descending, as
    `reversed(sorted(rows, key=record))` orders it. */
module Standings {
  import opened Wrappers
  import opened Ratings
  import opened Games
  import opened League
  import opened Sorting

  /** A row of the standings: a team and its record. */
  datatype Row = Row(team: string, wins: nat, losses: nat)

  predicate Listed(rows: seq<Row>, t: string) {
    exists i :: 0 <= i < |rows| && rows[i].team == t
  }

  predicate DistinctTeams(rows: seq<Row>) {
    forall i, j :: 0 <= i < j < |rows| ==> rows[i].team != rows[j].team
  }

  /** `if team not in team_records: team_records[team] = [0, 0]`. */
  function Ensure(rows: seq<Row>, t: string): (r: seq<Row>)
    ensures Listed(r, t)
    ensures forall u :: Listed(r, u) <==> Listed(rows, u) || u == t
    ensures DistinctTeams(rows) ==> DistinctTeams(r)
  {
    if Listed(rows, t) then rows
    else
      assert (rows + [Row(t, 0, 0)])[|rows|].team == t;
      assert forall i :: 0 <= i < |rows| ==> (rows + [Row(t, 0, 0)])[i] == rows[i];
      rows + [Row(t, 0, 0)]
  }

  /** `team_records[t][0] += 1` for a win, `team_records[t][1] += 1` for a loss. */
  function Bump(rows: seq<Row>, t: string, win: bool): (r: seq<Row>)
    ensures |r| == |rows|
    ensures forall i :: 0 <= i < |rows| ==> r[i].team == rows[i].team
    ensures forall i :: 0 <= i < |rows| && rows[i].team != t ==> r[i] == rows[i]
    ensures forall i :: 0 <= i < |rows| && rows[i].team == t ==>
      r[i] == if win then rows[i].(wins := rows[i].wins + 1) else rows[i].(losses := rows[i].losses + 1)
  {
    seq(|rows|, i requires 0 <= i < |rows| =>
      if rows[i].team != t then rows[i]
      else if win then rows[i].(wins := rows[i].wins + 1)
      else rows[i].(losses := rows[i].losses + 1))
  }

  /** One decided game: both teams listed, then a win for the team that
      scored more and a loss for the other. */
  function AddGame(rows: seq<Row>, g: GameRec): seq<Row>
    requires g.IsComplete()
  {
    var listed := Ensure(Ensure(rows, g.home), g.away);
    var homeWon := g.homePoints.value > g.awayPoints.value;
    Bump(Bump(listed, g.home, homeWon), g.away, !homeWon)
  }

  /** No complete game ended level. */
  predicate NoTies(rs: seq<GameRec>) {
    forall i :: 0 <= i < |rs| && rs[i].IsComplete() ==> rs[i].homePoints.value != rs[i].awayPoints.value
  }

  /** The first loop of `current_standings`: incomplete games are skipped, a
      complete game with equal scores fails the assertion. */
  function Tally(rs: seq<GameRec>): Result<seq<Row>>
  {
    if rs == [] then Ok([])
    else
      var g := rs[|rs| - 1];
      match Tally(rs[..|rs| - 1])
      case Err(e) => Err(e)
      case Ok(rows) =>
        if !g.IsComplete() then Ok(rows)
        else if g.homePoints.value == g.awayPoints.value then Err(AssertionError)
        else Ok(AddGame(rows, g))
  }

  /** The tally fails, with an AssertionError, exactly when some complete
      game has equal scores. */
  lemma {:induction false} TallyFails(rs: seq<GameRec>)
    ensures Tally(rs).Err? <==> !NoTies(rs)
    ensures Tally(rs).Err? ==> Tally(rs).error == AssertionError
  {
    if rs != [] {
      var prefix := rs[..|rs| - 1];
      TallyFails(prefix);
      assert NoTies(rs) <==> (NoTies(prefix) &&
        (rs[|rs| - 1].IsComplete() ==> rs[|rs| - 1].homePoints.value != rs[|rs| - 1].awayPoints.value)) by {
        assert forall i :: 0 <= i < |prefix| ==> prefix[i] == rs[i];
      }
    }
  }

  /** Team `t` plays in some complete game. */
  predicate Appears(t: string, rs: seq<GameRec>) {
    exists i :: 0 <= i < |rs| && rs[i].IsComplete() && (rs[i].home == t || rs[i].away == t)
  }

  /** How one game changes a row: rows already present keep their team and
      gain the game's credit, rows added for the game start from zero. */
  lemma AddGameRow(rows: seq<Row>, g: GameRec, i: int)
    requires g.IsComplete() && 0 <= i < |AddGame(rows, g)|
    ensures |AddGame(rows, g)| >= |rows|
    ensures i < |rows| ==> AddGame(rows, g)[i].team == rows[i].team
    ensures AddGame(rows, g)[i].wins == (if i < |rows| then rows[i].wins else 0) + WinsFrom(AddGame(rows, g)[i].team, g)
    ensures AddGame(rows, g)[i].losses == (if i < |rows| then rows[i].losses else 0) + LossesFrom(AddGame(rows, g)[i].team, g)
  {
    var listed := Ensure(Ensure(rows, g.home), g.away);
    assert forall j :: 0 <= j < |rows| ==> listed[j] == rows[j];
    assert forall j :: |rows| <= j < |listed| ==> listed[j].wins == 0 && listed[j].losses == 0;
  }

  /** The tally lists each team at most once, and exactly the teams of the
      complete games. */
  lemma {:induction false} TallyTeams(rs: seq<GameRec>)
    requires Tally(rs).Ok?
    ensures DistinctTeams(Tally(rs).value)
    ensures forall t :: Listed(Tally(rs).value, t) <==> Appears(t, rs)
  {
    if rs != [] {
      var prefix := rs[..|rs| - 1];
      var g := rs[|rs| - 1];
      TallyTeams(prefix);
      assert forall t :: Appears(t, rs) <==> Appears(t, prefix) || (g.IsComplete() && (g.home == t || g.away == t)) by {
        assert forall i :: 0 <= i < |prefix| ==> prefix[i] == rs[i];
      }
      if g.IsComplete() {
        AddGameTeams(Tally(prefix).value, g);
      }
    }
  }

  /** A decided game lists its two teams and keeps each team listed once. */
  lemma AddGameTeams(rows: seq<Row>, g: GameRec)
    requires g.IsComplete()
    ensures DistinctTeams(rows) ==> DistinctTeams(AddGame(rows, g))
    ensures forall t :: Listed(AddGame(rows, g), t) <==> Listed(rows, t) || t == g.home || t == g.away
  {
    var listed := Ensure(Ensure(rows, g.home), g.away);
    var homeWon := g.homePoints.value > g.awayPoints.value;
    var bumped := AddGame(rows, g);
    forall t ensures Listed(bumped, t) <==> Listed(listed, t) {
      if Listed(bumped, t) {
        var j :| 0 <= j < |bumped| && bumped[j].team == t;
        assert listed[j].team == t;
      }
      if Listed(listed, t) {
        var j :| 0 <= j < |listed| && listed[j].team == t;
        assert bumped[j].team == t;
      }
    }
  }

  /** Each row of the tally carries the wins and losses the complete games
      give its team. */
  lemma {:induction false} TallyRecords(rs: seq<GameRec>)
    requires Tally(rs).Ok?
    ensures var rows := Tally(rs).value;
      forall i :: 0 <= i < |rows| ==>
        rows[i].wins == ResultsIn(rows[i].team, rs, None, true) &&
        rows[i].losses == ResultsIn(rows[i].team, rs, None, false)
  {
    if rs != [] {
      var prefix := rs[..|rs| - 1];
      var g := rs[|rs| - 1];
      TallyRecords(prefix);
      TallyTeams(prefix);
      var prev := Tally(prefix).value;
      if g.IsComplete() {
        var rows := AddGame(prev, g);
        forall i | 0 <= i < |rows|
          ensures rows[i].wins == ResultsIn(rows[i].team, rs, None, true)
          ensures rows[i].losses == ResultsIn(rows[i].team, rs, None, false)
        {
          AddGameRow(prev, g, i);
          if i >= |prev| {
            var t := rows[i].team;
            assert !Listed(prev, t) by {
              if Listed(prev, t) {
                var j :| 0 <= j < |prev| && prev[j].team == t;
                AddGameRow(prev, g, j);
                assert false;
              }
            }
            NotAppearsNoResults(t, prefix);
          }
        }
      }
    }
  }

  lemma {:induction false} NotAppearsNoResults(t: string, rs: seq<GameRec>)
    requires !Appears(t, rs)
    ensures ResultsIn(t, rs, None, true) == 0 && ResultsIn(t, rs, None, false) == 0
  {
    if rs != [] {
      var prefix := rs[..|rs| - 1];
      assert !Appears(t, prefix) by {
        if Appears(t, prefix) {
          var i :| 0 <= i < |prefix| && prefix[i].IsComplete() && (prefix[i].home == t || prefix[i].away == t);
          assert false;
        }
      }
      assert !(rs[|rs| - 1].IsComplete() && (rs[|rs| - 1].home == t || rs[|rs| - 1].away == t));
      NotAppearsNoResults(t, prefix);
    }
  }

  // ---------------------------------------------------------------------
  // Totals.

  /** Sum of the wins (`win`) or losses (not `win`) of the rows. */
  function SumRecords(rows: seq<Row>, win: bool): nat {
    if rows == [] then 0
    else SumRecords(rows[..|rows| - 1], win) + (if win then rows[|rows| - 1].wins else rows[|rows| - 1].losses)
  }

  /** Number of complete games. */
  function CompleteCount(rs: seq<GameRec>): nat {
    if rs == [] then 0
    else CompleteCount(rs[..|rs| - 1]) + (if rs[|rs| - 1].IsComplete() then 1 else 0)
  }

  lemma EnsureSum(rows: seq<Row>, t: string, win: bool)
    ensures SumRecords(Ensure(rows, t), win) == SumRecords(rows, win)
  {
    if !Listed(rows, t) {
      assert (rows + [Row(t, 0, 0)])[..|rows|] == rows;
    }
  }

  /** Bumping a team that is listed once adds exactly one to the total of
      the bumped column and leaves the other column alone. */
  lemma {:induction false} BumpSum(rows: seq<Row>, t: string, win: bool, col: bool)
    requires DistinctTeams(rows) && Listed(rows, t)
    ensures SumRecords(Bump(rows, t, win), col) == SumRecords(rows, col) + (if col == win then 1 else 0)
  {
    var n := |rows|;
    var last := rows[n - 1];
    var prefix := rows[..n - 1];
    assert Bump(rows, t, win)[..n - 1] == Bump(prefix, t, win);
    assert DistinctTeams(prefix);
    if last.team == t {
      assert !Listed(prefix, t);
      assert Bump(prefix, t, win) == prefix;
    } else {
      assert Listed(prefix, t) by {
        var j :| 0 <= j < n && rows[j].team == t;
        assert prefix[j].team == t;
      }
      BumpSum(prefix, t, win, col);
    }
  }

  lemma BumpKeepsTeams(rows: seq<Row>, t: string, win: bool, u: string)
    requires DistinctTeams(rows) && Listed(rows, u)
    ensures DistinctTeams(Bump(rows, t, win)) && Listed(Bump(rows, t, win), u)
  {
    var r := Bump(rows, t, win);
    var j :| 0 <= j < |rows| && rows[j].team == u;
    assert r[j].team == u;
  }

  /** One decided game adds one to the total wins and one to the total
      losses. */
  lemma AddGameSum(rows: seq<Row>, g: GameRec, col: bool)
    requires DistinctTeams(rows) && g.IsComplete()
    ensures SumRecords(AddGame(rows, g), col) == SumRecords(rows, col) + 1
  {
    var l1 := Ensure(rows, g.home);
    var listed := Ensure(l1, g.away);
    var homeWon := g.homePoints.value > g.awayPoints.value;
    var b1 := Bump(listed, g.home, homeWon);
    EnsureSum(rows, g.home, col);
    EnsureSum(l1, g.away, col);
    assert Listed(listed, g.home) && Listed(listed, g.away) && DistinctTeams(listed);
    BumpSum(listed, g.home, homeWon, col);
    BumpKeepsTeams(listed, g.home, homeWon, g.away);
    BumpSum(b1, g.away, !homeWon, col);
  }

  /** Only complete games count, so the standings hold as many wins, and as
      many losses, as there are complete games. */
  lemma {:induction false} TallyTotals(rs: seq<GameRec>)
    requires Tally(rs).Ok?
    ensures SumRecords(Tally(rs).value, true) == CompleteCount(rs)
    ensures SumRecords(Tally(rs).value, false) == CompleteCount(rs)
  {
    if rs != [] {
      var prefix := rs[..|rs| - 1];
      var g := rs[|rs| - 1];
      TallyTotals(prefix);
      if g.IsComplete() {
        TallyTeams(prefix);
        AddGameSum(Tally(prefix).value, g, true);
        AddGameSum(Tally(prefix).value, g, false);
      }
    }
  }

  // ---------------------------------------------------------------------
  // Conferences and order.

  /** `[row for row in records if teams[row.team].conference == c]`. */
  function InConference(rows: seq<Row>, conf: map<string, Conference>, c: Conference): (r: seq<Row>)
    requires forall i :: 0 <= i < |rows| ==> rows[i].team in conf
    ensures forall x :: x in r <==> x in rows && conf[x.team] == c
    ensures |r| <= |rows|
  {
    if rows == [] then []
    else
      var rest := InConference(rows[1..], conf, c);
      assert forall x :: x in rows <==> x == rows[0] || x in rows[1..];
      if conf[rows[0].team] == c then [rows[0]] + rest else rest
  }

  /** The filter keeps the tally's order: filtering a concatenation is
      concatenating the filtered pieces, so rows of one conference come
      out in the order the tally lists them. */
  lemma {:induction false} InConferenceAppend(a: seq<Row>, b: seq<Row>, conf: map<string, Conference>, c: Conference)
    requires forall i :: 0 <= i < |a| ==> a[i].team in conf
    requires forall i :: 0 <= i < |b| ==> b[i].team in conf
    ensures forall i :: 0 <= i < |a + b| ==> (a + b)[i].team in conf
    ensures InConference(a + b, conf, c) == InConference(a, conf, c) + InConference(b, conf, c)
  {
    forall i | 0 <= i < |a + b| ensures (a + b)[i].team in conf {
      if i < |a| { assert (a + b)[i] == a[i]; } else { assert (a + b)[i] == b[i - |a|]; }
    }
    if a == [] {
      assert a + b == b;
    } else {
      var ab := a + b;
      assert ab[0] == a[0];
      assert ab[1..] == a[1..] + b;
      InConferenceAppend(a[1..], b, conf, c);
      var head := if conf[a[0].team] == c then [a[0]] else [];
      assert InConference(ab, conf, c) == head + InConference(ab[1..], conf, c);
      assert InConference(a, conf, c) == head + InConference(a[1..], conf, c);
    }
  }

  /** The two conference lists split the rows between them: together they
      hold every row exactly as often as the tally does. */
  lemma {:induction false} ConferenceSplit(rows: seq<Row>, conf: map<string, Conference>)
    requires forall i :: 0 <= i < |rows| ==> rows[i].team in conf
    ensures multiset(InConference(rows, conf, West)) + multiset(InConference(rows, conf, East)) == multiset(rows)
  {
    if rows != [] {
      ConferenceSplit(rows[1..], conf);
      assert rows == [rows[0]] + rows[1..];
    }
  }

  /** The record `(wins, losses)` as a sort key. */
  function RecordKey(r: Row): Key { (r.wins, r.losses) }

  function Reverse<T>(s: seq<T>): (r: seq<T>)
    ensures |r| == |s|
    ensures forall i :: 0 <= i < |s| ==> r[i] == s[|s| - 1 - i]
  {
    if s == [] then [] else [s[|s| - 1]] + Reverse(s[..|s| - 1])
  }

  lemma {:induction false} ReverseMultiset<T>(s: seq<T>)
    ensures multiset(Reverse(s)) == multiset(s)
  {
    if s != [] {
      ReverseMultiset(s[..|s| - 1]);
      assert s == s[..|s| - 1] + [s[|s| - 1]];
    }
  }

  /** `sort_standings`: `reversed(sorted(rows, key=record))`. */
  function SortStandings(rows: seq<Row>): seq<Row> {
    Reverse(SortBy(rows, RecordKey))
  }

  lemma ReverseDescending<T>(s: seq<T>, key: T -> Key)
    requires SortedBy(s, key)
    ensures forall i, j :: 0 <= i < j < |s| ==> KeyLe(key(Reverse(s)[j]), key(Reverse(s)[i]))
  {
    var r := Reverse(s);
    forall i, j | 0 <= i < j < |r| ensures KeyLe(key(r[j]), key(r[i])) {
      assert r[j] == s[|s| - 1 - j] && r[i] == s[|s| - 1 - i];
    }
  }

  /** The sorted standings are a permutation of the rows, ordered by
      `(wins, losses)` from the greatest down. */
  lemma SortStandingsOrder(rows: seq<Row>)
    ensures multiset(SortStandings(rows)) == multiset(rows)
    ensures forall i, j :: 0 <= i < j < |SortStandings(rows)| ==>
      KeyLe(RecordKey(SortStandings(rows)[j]), RecordKey(SortStandings(rows)[i]))
  {
    ReverseMultiset(SortBy(rows, RecordKey));
    ReverseDescending(SortBy(rows, RecordKey), RecordKey);
  }

  /** One more game of the first loop of `current_standings`. */
  lemma TallyNext(rs: seq<GameRec>, i: nat)
    requires i < |rs|
    ensures Tally(rs[..i + 1]) ==
      match Tally(rs[..i])
      case Err(e) => Err(e)
      case Ok(rows) =>
        if !rs[i].IsComplete() then Ok(rows)
        else if rs[i].homePoints.value == rs[i].awayPoints.value then Err(AssertionError)
        else Ok(AddGame(rows, rs[i]))
  {
    assert rs[..i + 1][..i] == rs[..i];
  }

  /** Every team of a successful tally has a conference. */
  lemma TallyInConference(rs: seq<GameRec>, conf: map<string, Conference>)
    requires forall i :: 0 <= i < |rs| ==> rs[i].home in conf && rs[i].away in conf
    requires Tally(rs).Ok?
    ensures forall i :: 0 <= i < |Tally(rs).value| ==> Tally(rs).value[i].team in conf
  {
    var rows := Tally(rs).value;
    TallyTeams(rs);
    forall i | 0 <= i < |rows| ensures rows[i].team in conf {
      assert Listed(rows, rows[i].team);
    }
  }

  /** The whole of `current_standings` on values: the tally, split by
      conference, each part sorted; `conf` gives each team's conference. */
  function StandingsOf(rs: seq<GameRec>, conf: map<string, Conference>): Result<(seq<Row>, seq<Row>)>
    requires forall i :: 0 <= i < |rs| ==> rs[i].home in conf && rs[i].away in conf
  {
    match Tally(rs)
    case Err(e) => Err(e)
    case Ok(rows) =>
      TallyInConference(rs, conf);
      Ok((SortStandings(InConference(rows, conf, West)), SortStandings(InConference(rows, conf, East))))
  }

  /** Every team in the standings has a conference, the West's rows are
      Western teams and the East's rows Eastern teams. */
  lemma StandingsTeams(rs: seq<GameRec>, conf: map<string, Conference>)
    requires forall i :: 0 <= i < |rs| ==> rs[i].home in conf && rs[i].away in conf
    ensures StandingsOf(rs, conf).Ok? ==>
      (forall i :: 0 <= i < |StandingsOf(rs, conf).value.0| ==>
        StandingsOf(rs, conf).value.0[i].team in conf && conf[StandingsOf(rs, conf).value.0[i].team] == West) &&
      (forall i :: 0 <= i < |StandingsOf(rs, conf).value.1| ==>
        StandingsOf(rs, conf).value.1[i].team in conf && conf[StandingsOf(rs, conf).value.1[i].team] == East)
  {
    if Tally(rs).Ok? {
      TallyInConference(rs, conf);
      SideTeams(Tally(rs).value, conf, West);
      SideTeams(Tally(rs).value, conf, East);
    }
  }

  /** The sorted rows of one conference all belong to it. */
  lemma SideTeams(rows: seq<Row>, conf: map<string, Conference>, c: Conference)
    requires forall i :: 0 <= i < |rows| ==> rows[i].team in conf
    ensures forall i :: 0 <= i < |SortStandings(InConference(rows, conf, c))| ==>
      SortStandings(InConference(rows, conf, c))[i].team in conf &&
      conf[SortStandings(InConference(rows, conf, c))[i].team] == c
  {
    var side := InConference(rows, conf, c);
    SortStandingsOrder(side);
    forall i | 0 <= i < |SortStandings(side)|
      ensures SortStandings(side)[i].team in conf && conf[SortStandings(side)[i].team] == c
    {
      var x := SortStandings(side)[i];
      assert x in multiset(SortStandings(side));
      assert x in side;
      var j :| 0 <= j < |rows| && rows[j] == x;
    }
  }
}
