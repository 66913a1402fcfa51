/** The league-wide effect of `Season.update_ratings` and
    `Season.play_through_season` (nbaelo/elo.py) on team values: a league maps
    each team symbol to its `TeamRec`, and a replay applies every counted game
    in schedule order. */
module League {
  import opened Wrappers
  import opened Ratings
  import opened EloFormula
  import opened Games

  type League = map<string, TeamRec>

  /** Every team's change dictionary has unique keys. */
  predicate WellFormed(l: League) {
    forall t :: t in l ==> DistinctDates(l[t].changes)
  }

  /** Every game names two teams of the league. */
  predicate Covers(l: League, gs: seq<GameRec>) {
    forall i :: 0 <= i < |gs| ==> gs[i].home in l && gs[i].away in l
  }

  /** The filter of `play_through_season(stop_date)`: the game is complete and
      not dated before the stop date. */
  predicate Counted(g: GameRec, stop: Option<int>) {
    g.IsComplete() && !(stop.Some? && stop.value > g.date)
  }

  /** A complete game recorded with home change `d`: the home team records
      `d` on the game's date, then the away team records `-d`; the home side
      is the winner iff it scored more. */
  function ApplyChange(l: League, g: GameRec, d: real): (r: League)
    requires g.IsComplete() && g.home in l && g.away in l
    ensures r.Keys == l.Keys
    ensures forall t :: t in l && t != g.home && t != g.away ==> r[t] == l[t]
  {
    var homeWon := g.homePoints.value > g.awayPoints.value;
    var l1 := l[g.home := l[g.home].Record(g.date, d, homeWon)];
    l1[g.away := l1[g.away].Record(g.date, -d, !homeWon)]
  }

  /** `update_ratings(game, k)` on values: both ratings are read before
      either team is updated, and the home change is the Elo formula's. */
  function ApplyResult(l: League, e: Engine, k: real, g: GameRec): (r: League)
    requires g.IsComplete() && g.home in l && g.away in l
    ensures r.Keys == l.Keys
  {
    ApplyChange(l, g, HomeChange(e, k, l[g.home].Rating(), l[g.away].Rating(),
                                 g.homePoints.value, g.awayPoints.value))
  }

  /** One more game of the schedule: applied when counted, skipped otherwise. */
  lemma ReplayNext(l: League, e: Engine, gs: seq<GameRec>, i: nat, stop: Option<int>)
    requires Covers(l, gs) && i < |gs|
    ensures Covers(l, gs[..i]) && Covers(l, gs[..i + 1])
    ensures Replay(l, e, gs[..i + 1], stop) ==
      if Counted(gs[i], stop) then ApplyResult(Replay(l, e, gs[..i], stop), e, KFactor, gs[i])
      else Replay(l, e, gs[..i], stop)
  {
    assert gs[..i + 1][..i] == gs[..i];
  }

  /** Recording the home side, then the away side, is `ApplyChange`. */
  lemma ApplyChangeSteps(l0: League, l1: League, l2: League, g: GameRec, d: real)
    requires g.IsComplete() && g.home in l0 && g.away in l0
    requires l1 == l0[g.home := l0[g.home].Record(g.date, d, g.homePoints.value - g.awayPoints.value > 0)]
    requires l2 == l1[g.away := l1[g.away].Record(g.date, -d, !(g.homePoints.value - g.awayPoints.value > 0))]
    ensures l2 == ApplyChange(l0, g, d)
  {
  }

  /** The Elo change of `ApplyResult` depends on the league only through
      the two current ratings. */
  lemma ApplyResultWith(l: League, e: Engine, k: real, g: GameRec, hr: real, ar: real)
    requires g.IsComplete() && g.home in l && g.away in l
    requires hr == l[g.home].Rating() && ar == l[g.away].Rating()
    ensures ApplyResult(l, e, k, g) == ApplyChange(l, g, HomeChange(e, k, hr, ar, g.homePoints.value, g.awayPoints.value))
  {
  }

  /** `play_through_season(stop)` on values: the counted games of `gs`, in
      order, each applied with `Season.k_factor`. */
  function Replay(l: League, e: Engine, gs: seq<GameRec>, stop: Option<int>): (r: League)
    requires Covers(l, gs)
    ensures r.Keys == l.Keys
    decreases |gs|
  {
    if gs == [] then l
    else
      var prev := Replay(l, e, gs[..|gs| - 1], stop);
      var g := gs[|gs| - 1];
      if Counted(g, stop) then ApplyResult(prev, e, KFactor, g) else prev
  }

  /** Applying a schedule in two pieces is applying it whole: the replay
      of the second piece starts from the ratings and records the first
      one left. */
  lemma {:induction false} ReplayAppend(l: League, e: Engine, a: seq<GameRec>, b: seq<GameRec>, stop: Option<int>)
    requires Covers(l, a + b)
    ensures Covers(l, a) && Covers(Replay(l, e, a, stop), b)
    ensures Replay(l, e, a + b, stop) == Replay(Replay(l, e, a, stop), e, b, stop)
    decreases |b|
  {
    forall i | 0 <= i < |a| ensures a[i].home in l && a[i].away in l {
      assert a[i] == (a + b)[i];
    }
    forall i | 0 <= i < |b| ensures b[i].home in l && b[i].away in l {
      assert b[i] == (a + b)[|a| + i];
    }
    if b == [] {
      assert a + b == a;
    } else {
      var b' := b[..|b| - 1];
      assert (a + b)[..|a + b| - 1] == a + b';
      assert (a + b)[|a + b| - 1] == b[|b| - 1];
      forall i | 0 <= i < |a + b'| ensures (a + b')[i].home in l && (a + b')[i].away in l {
        assert (a + b')[i] == (a + b)[i];
      }
      ReplayAppend(l, e, a, b', stop);
    }
  }

  /** The recorded change depends on the league only through the two
      ratings read before either team records: two leagues whose home and
      away ratings agree record the same Elo change for the home team and
      its negation for the away team, and two leagues that agree on both
      teams agree on them afterwards. */
  lemma ApplyResultFrame(l1: League, l2: League, e: Engine, k: real, g: GameRec)
    requires WellFormed(l1) && WellFormed(l2) && g.IsComplete() && g.home != g.away
    requires g.home in l1 && g.away in l1 && g.home in l2 && g.away in l2
    requires l1[g.home].Rating() == l2[g.home].Rating() && l1[g.away].Rating() == l2[g.away].Rating()
    ensures var d := HomeChange(e, k, l1[g.home].Rating(), l1[g.away].Rating(),
                                g.homePoints.value, g.awayPoints.value);
      var r1, r2 := ApplyResult(l1, e, k, g), ApplyResult(l2, e, k, g);
      DeltaAt(r1[g.home].changes, g.date) == d && DeltaAt(r2[g.home].changes, g.date) == d &&
      DeltaAt(r1[g.away].changes, g.date) == -d && DeltaAt(r2[g.away].changes, g.date) == -d
    ensures l1[g.home] == l2[g.home] && l1[g.away] == l2[g.away] ==>
      ApplyResult(l1, e, k, g)[g.home] == ApplyResult(l2, e, k, g)[g.home] &&
      ApplyResult(l1, e, k, g)[g.away] == ApplyResult(l2, e, k, g)[g.away]
  {
    var d := HomeChange(e, k, l1[g.home].Rating(), l1[g.away].Rating(), g.homePoints.value, g.awayPoints.value);
    ApplyChangeNegates(l1, g, d);
    ApplyChangeNegates(l2, g, d);
  }

  /** Recording a game keeps every team's dictionary keys unique. */
  lemma ApplyChangeWellFormed(l: League, g: GameRec, d: real)
    requires WellFormed(l) && g.IsComplete() && g.home in l && g.away in l
    ensures WellFormed(ApplyChange(l, g, d))
  {
    var homeWon := g.homePoints.value > g.awayPoints.value;
    var l1 := l[g.home := l[g.home].Record(g.date, d, homeWon)];
    PutKeys(l[g.home].changes, g.date, d);
    PutKeys(l1[g.away].changes, g.date, -d);
  }

  lemma {:induction false} ReplayWellFormed(l: League, e: Engine, gs: seq<GameRec>, stop: Option<int>)
    requires WellFormed(l) && Covers(l, gs)
    ensures WellFormed(Replay(l, e, gs, stop))
    decreases |gs|
  {
    if gs != [] {
      var prefix := gs[..|gs| - 1];
      var g := gs[|gs| - 1];
      ReplayWellFormed(l, e, prefix, stop);
      var prev := Replay(l, e, prefix, stop);
      if Counted(g, stop) {
        ApplyChangeWellFormed(prev, g, HomeChange(e, KFactor, prev[g.home].Rating(), prev[g.away].Rating(),
                                                  g.homePoints.value, g.awayPoints.value));
      }
    }
  }

  // ---------------------------------------------------------------------
  // Win and loss counts.

  /** Wins a complete game gives team `t`: one if `t` is the home side and
      the home side scored more, or `t` is the away side and it did not. */
  function WinsFrom(t: string, g: GameRec): nat
    requires g.IsComplete()
  {
    var homeWon := g.homePoints.value > g.awayPoints.value;
    if (g.home == t && homeWon) || (g.away == t && !homeWon) then 1 else 0
  }

  /** Losses a complete game gives team `t`. */
  function LossesFrom(t: string, g: GameRec): nat
    requires g.IsComplete()
  {
    var homeWon := g.homePoints.value > g.awayPoints.value;
    if (g.home == t && !homeWon) || (g.away == t && homeWon) then 1 else 0
  }

  /** The wins (`win`) or losses (not `win`) a game gives team `t` when
      it is counted. */
  function Credit(t: string, g: GameRec, stop: Option<int>, win: bool): nat {
    if !Counted(g, stop) then 0 else if win then WinsFrom(t, g) else LossesFrom(t, g)
  }

  /** The wins (`win`) or losses (not `win`) the counted games of `gs` give
      team `t`. */
  function ResultsIn(t: string, gs: seq<GameRec>, stop: Option<int>, win: bool): nat {
    if gs == [] then 0
    else ResultsIn(t, gs[..|gs| - 1], stop, win) + Credit(t, gs[|gs| - 1], stop, win)
  }

  lemma {:induction false} ResultsInCons(t: string, g: GameRec, gs: seq<GameRec>, stop: Option<int>, win: bool)
    ensures ResultsIn(t, [g] + gs, stop, win) == Credit(t, g, stop, win) + ResultsIn(t, gs, stop, win)
    decreases |gs|
  {
    if gs != [] {
      assert ([g] + gs)[..|[g] + gs| - 1] == [g] + gs[..|gs| - 1];
      ResultsInCons(t, g, gs[..|gs| - 1], stop, win);
    } else {
      assert ([g] + gs)[..0] == [];
    }
  }

  /** One game records the home change on the game's date and gives the
      away team exactly its negation. */
  lemma ApplyChangeNegates(l: League, g: GameRec, d: real)
    requires WellFormed(l) && g.IsComplete() && g.home in l && g.away in l && g.home != g.away
    ensures var r := ApplyChange(l, g, d);
      DeltaAt(r[g.home].changes, g.date) == d && DeltaAt(r[g.away].changes, g.date) == -d
  {
    PutSets(l[g.home].changes, g.date, d);
    PutSets(l[g.away].changes, g.date, -d);
  }

  /** One game adds a win to its winner and a loss to its loser, and nothing
      to any other team; the home side gains the win iff it scored more. */
  lemma ApplyChangeRecords(l: League, g: GameRec, d: real)
    requires g.IsComplete() && g.home in l && g.away in l && g.home != g.away
    ensures forall t :: t in l ==>
      ApplyChange(l, g, d)[t].wins == l[t].wins + WinsFrom(t, g) &&
      ApplyChange(l, g, d)[t].losses == l[t].losses + LossesFrom(t, g)
    ensures var r := ApplyChange(l, g, d);
      (r[g.home].wins > l[g.home].wins <==> g.homePoints.value > g.awayPoints.value) &&
      (r[g.away].wins > l[g.away].wins <==> g.homePoints.value <= g.awayPoints.value)
  {
  }

  /** Outside the game's date on its two teams, no stored change moves. */
  lemma ApplyChangeElsewhere(l: League, g: GameRec, d: real)
    requires WellFormed(l) && g.IsComplete() && g.home in l && g.away in l
    ensures forall t, date :: t in l && !(date == g.date && (t == g.home || t == g.away)) ==>
      DeltaAt(ApplyChange(l, g, d)[t].changes, date) == DeltaAt(l[t].changes, date)
  {
    var homeWon := g.homePoints.value > g.awayPoints.value;
    var l1 := l[g.home := l[g.home].Record(g.date, d, homeWon)];
    forall t, date | t in l && !(date == g.date && (t == g.home || t == g.away))
      ensures DeltaAt(ApplyChange(l, g, d)[t].changes, date) == DeltaAt(l[t].changes, date)
    {
      if t == g.home { PutKeeps(l[g.home].changes, g.date, d, date); }
      if t == g.away { PutKeeps(l1[g.away].changes, g.date, -d, date); }
    }
  }

  /** After a replay each team has gained exactly the wins and losses the
      counted games give it. */
  lemma {:induction false} ReplayRecords(l: League, e: Engine, gs: seq<GameRec>, stop: Option<int>, t: string)
    requires Covers(l, gs) && t in l
    ensures Replay(l, e, gs, stop)[t].wins == l[t].wins + ResultsIn(t, gs, stop, true)
    ensures Replay(l, e, gs, stop)[t].losses == l[t].losses + ResultsIn(t, gs, stop, false)
    decreases |gs|
  {
    if gs != [] {
      var prefix := gs[..|gs| - 1];
      ReplayRecords(l, e, prefix, stop, t);
      var prev := Replay(l, e, prefix, stop);
      var g := gs[|gs| - 1];
      if Counted(g, stop) && g.home != g.away {
        ApplyChangeRecords(prev, g, HomeChange(e, KFactor, prev[g.home].Rating(), prev[g.away].Rating(),
                                               g.homePoints.value, g.awayPoints.value));
      }
    }
  }

  // ---------------------------------------------------------------------
  // The league-wide sum of rating changes.

  /** Sum of the values of a map. */
  ghost function Total<K>(m: map<K, real>): real
    decreases |m|
  {
    if m == map[] then 0.0
    else
      var k :| k in m;
      assert |m - {k}| < |m| by { assert m.Keys == (m - {k}).Keys + {k}; }
      m[k] + Total(m - {k})
  }

  lemma TotalRemove<K>(m: map<K, real>, k: K)
    requires k in m
    ensures Total(m) == m[k] + Total(m - {k})
    decreases |m|
  {
    var j :| j in m && Total(m) == m[j] + Total(m - {j});
    if j != k {
      assert (m - {j}) - {k} == (m - {k}) - {j};
      assert |m - {j}| < |m| by { assert m.Keys == (m - {j}).Keys + {j}; }
      assert |m - {k}| < |m| by { assert m.Keys == (m - {k}).Keys + {k}; }
      TotalRemove(m - {j}, k);
      TotalRemove(m - {k}, j);
    }
  }

  lemma TotalUpdate<K>(m: map<K, real>, k: K, v: real)
    requires k in m
    ensures Total(m[k := v]) == Total(m) - m[k] + v
  {
    TotalRemove(m, k);
    TotalRemove(m[k := v], k);
    assert m[k := v] - {k} == m - {k};
  }

  lemma {:induction false} TotalZero<K>(m: map<K, real>)
    requires forall k :: k in m ==> m[k] == 0.0
    ensures Total(m) == 0.0
    decreases |m|
  {
    if m != map[] {
      var k :| k in m;
      TotalRemove(m, k);
      assert |m - {k}| < |m| by { assert m.Keys == (m - {k}).Keys + {k}; }
      TotalZero(m - {k});
    }
  }

  /** Each team's summed changes. */
  function Deltas(l: League): map<string, real> {
    map t | t in l :: SumDeltas(l[t].changes)
  }

  /** The league-wide sum of every recorded rating change. */
  ghost function TotalDelta(l: League): real {
    Total(Deltas(l))
  }

  lemma TotalDeltaUpdate(l: League, t: string, v: TeamRec)
    requires t in l
    ensures TotalDelta(l[t := v]) == TotalDelta(l) - SumDeltas(l[t].changes) + SumDeltas(v.changes)
  {
    assert Deltas(l[t := v]) == Deltas(l)[t := SumDeltas(v.changes)];
    TotalUpdate(Deltas(l), t, SumDeltas(v.changes));
  }

  /** Recording one change for team `t` moves the league total by the new
      change minus the one it overwrites. */
  lemma TotalDeltaRecord(l: League, t: string, date: int, d: real, isWin: bool)
    requires t in l && DistinctDates(l[t].changes)
    ensures TotalDelta(l[t := l[t].Record(date, d, isWin)]) == TotalDelta(l) - DeltaAt(l[t].changes, date) + d
  {
    PutSum(l[t].changes, date, d);
    TotalDeltaUpdate(l, t, l[t].Record(date, d, isWin));
  }

  /** One game moves the league total only by the two changes it overwrites:
      a fresh date (or a zero change) on both sides leaves it unchanged. */
  lemma ApplyChangeTotal(l: League, g: GameRec, d: real)
    requires WellFormed(l) && g.IsComplete() && g.home in l && g.away in l && g.home != g.away
    ensures TotalDelta(ApplyChange(l, g, d))
         == TotalDelta(l) - DeltaAt(l[g.home].changes, g.date) - DeltaAt(l[g.away].changes, g.date)
  {
    var homeWon := g.homePoints.value > g.awayPoints.value;
    var l1 := l[g.home := l[g.home].Record(g.date, d, homeWon)];
    TotalDeltaRecord(l, g.home, g.date, d, homeWon);
    assert l1[g.away] == l[g.away];
    TotalDeltaRecord(l1, g.away, g.date, -d, !homeWon);
  }

  /** Every stored change of every team is zero, as for freshly built teams. */
  predicate Untouched(l: League) {
    forall t, i :: t in l && 0 <= i < |l[t].changes| ==> l[t].changes[i].1 == 0.0
  }

  lemma {:induction false} ZeroChanges(s: Changes, date: int)
    requires forall i :: 0 <= i < |s| ==> s[i].1 == 0.0
    ensures DeltaAt(s, date) == 0.0 && SumDeltas(s) == 0.0
  {
    if s != [] {
      ZeroChanges(s[1..], date);
    }
  }

  /** Team `t` plays a counted game of `gs` dated `d`. */
  predicate PlayedOn(t: string, d: int, gs: seq<GameRec>, stop: Option<int>) {
    exists i :: 0 <= i < |gs| && Counted(gs[i], stop) && gs[i].date == d && (gs[i].home == t || gs[i].away == t)
  }

  /** No team plays two counted games with the same timestamp, and no
      counted game sets a team against itself. */
  predicate NoDoubleBooking(gs: seq<GameRec>, stop: Option<int>) {
    (forall i :: 0 <= i < |gs| && Counted(gs[i], stop) ==> gs[i].home != gs[i].away) &&
    (forall i, j :: 0 <= i < j < |gs| && Counted(gs[i], stop) && Counted(gs[j], stop) && gs[i].date == gs[j].date ==>
       gs[i].home != gs[j].home && gs[i].home != gs[j].away &&
       gs[i].away != gs[j].home && gs[i].away != gs[j].away)
  }

  /** Starting from untouched teams, a team has a non-zero change only on
      dates on which it played a counted game. */
  lemma {:induction false} ReplayChangesOnPlayedDates(l: League, e: Engine, gs: seq<GameRec>, stop: Option<int>)
    requires WellFormed(l) && Covers(l, gs) && Untouched(l)
    ensures forall t, d :: t in l && !PlayedOn(t, d, gs, stop) ==> DeltaAt(Replay(l, e, gs, stop)[t].changes, d) == 0.0
    decreases |gs|
  {
    if gs == [] {
      forall t, d | t in l ensures DeltaAt(l[t].changes, d) == 0.0 {
        ZeroChanges(l[t].changes, d);
      }
    } else {
      var prefix := gs[..|gs| - 1];
      var g := gs[|gs| - 1];
      ReplayChangesOnPlayedDates(l, e, prefix, stop);
      ReplayWellFormed(l, e, prefix, stop);
      var prev := Replay(l, e, prefix, stop);
      forall t, d | t in l && !PlayedOn(t, d, gs, stop)
        ensures DeltaAt(Replay(l, e, gs, stop)[t].changes, d) == 0.0
      {
        assert !PlayedOn(t, d, prefix, stop) by {
          if PlayedOn(t, d, prefix, stop) {
            var i :| 0 <= i < |prefix| && Counted(prefix[i], stop) && prefix[i].date == d && (prefix[i].home == t || prefix[i].away == t);
          }
        }
        if Counted(g, stop) {
          ApplyChangeElsewhere(prev, g, HomeChange(e, KFactor, prev[g.home].Rating(), prev[g.away].Rating(),
                                                   g.homePoints.value, g.awayPoints.value));
        }
      }
    }
  }

  /** Zero sum: replaying a schedule in which no team is double-booked, from
      untouched teams, keeps the league-wide sum of rating changes at zero,
      because every game gives the away team the negation of the home
      team's change. */
  lemma {:induction false} ReplayZeroSum(l: League, e: Engine, gs: seq<GameRec>, stop: Option<int>)
    requires WellFormed(l) && Covers(l, gs) && Untouched(l) && NoDoubleBooking(gs, stop)
    ensures TotalDelta(Replay(l, e, gs, stop)) == 0.0
    decreases |gs|
  {
    if gs == [] {
      forall t | t in l ensures Deltas(l)[t] == 0.0 {
        ZeroChanges(l[t].changes, 0);
      }
      TotalZero(Deltas(l));
    } else {
      var prefix := gs[..|gs| - 1];
      var g := gs[|gs| - 1];
      assert NoDoubleBooking(prefix, stop) by {
        forall i | 0 <= i < |prefix| ensures prefix[i] == gs[i] { }
      }
      ReplayZeroSum(l, e, prefix, stop);
      if Counted(g, stop) {
        var prev := Replay(l, e, prefix, stop);
        ReplayChangesOnPlayedDates(l, e, prefix, stop);
        ReplayWellFormed(l, e, prefix, stop);
        assert !PlayedOn(g.home, g.date, prefix, stop) && !PlayedOn(g.away, g.date, prefix, stop) by {
          if PlayedOn(g.home, g.date, prefix, stop) || PlayedOn(g.away, g.date, prefix, stop) {
            var i :| 0 <= i < |prefix| && Counted(prefix[i], stop) && prefix[i].date == g.date &&
                     (prefix[i].home == g.home || prefix[i].away == g.home ||
                      prefix[i].home == g.away || prefix[i].away == g.away);
            assert false;
          }
        }
        assert g.home != g.away by { assert gs[|gs| - 1] == g; }
        ApplyChangeTotal(prev, g, HomeChange(e, KFactor, prev[g.home].Rating(), prev[g.away].Rating(),
                                             g.homePoints.value, g.awayPoints.value));
      }
    }
  }
}
