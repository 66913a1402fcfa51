/** The counting behind `Simulator.playoff_probabilities`,
    `Simulator.top_seed_probabilities` and
    `Simulator.get_championship_probabilities` (nbaelo/elo.py), on values:
    every team symbol starts at zero, each simulated season adds one to the
    teams it picks (`teams[team] += 1`, a KeyError for an unknown symbol),
    and each count is finally divided by the number of seasons. */
module Tallies {
  import opened Wrappers
  import opened Standings
  import opened EloFormula
  import opened Playoffs

  type Counts = map<string, nat>

  /** The standings of one season, as `current_standings` gives them. */
  type SeasonTable = Result<(seq<Row>, seq<Row>)>

  /** `{team.symbol: 0 for team in self.teams}`. */
  function ZeroCounts(symbols: seq<string>): (c: Counts)
    ensures forall k :: k in c <==> k in symbols
    ensures forall k :: k in c ==> c[k] == 0
  {
    map k | k in symbols :: 0
  }

  /** Number of times `t` occurs in `s`. */
  function Occurrences(t: string, s: seq<string>): nat {
    if s == [] then 0
    else Occurrences(t, s[..|s| - 1]) + (if s[|s| - 1] == t then 1 else 0)
  }

  lemma {:induction false} OccurrencesAppend(t: string, a: seq<string>, b: seq<string>)
    ensures Occurrences(t, a + b) == Occurrences(t, a) + Occurrences(t, b)
    decreases |b|
  {
    if b != [] {
      assert (a + b)[..|a + b| - 1] == a + b[..|b| - 1];
      assert (a + b)[|a + b| - 1] == b[|b| - 1];
      OccurrencesAppend(t, a, b[..|b| - 1]);
    } else {
      assert a + b == a;
    }
  }

  /** Sum of the counts. */
  ghost function SumCounts(c: Counts): nat
    decreases |c|
  {
    if c == map[] then 0
    else
      var k :| k in c;
      assert |c - {k}| < |c| by { assert c.Keys == (c - {k}).Keys + {k}; }
      c[k] + SumCounts(c - {k})
  }

  lemma SumCountsRemove(c: Counts, k: string)
    requires k in c
    ensures SumCounts(c) == c[k] + SumCounts(c - {k})
    decreases |c|
  {
    var j :| j in c && SumCounts(c) == c[j] + SumCounts(c - {j});
    if j != k {
      assert (c - {j}) - {k} == (c - {k}) - {j};
      assert |c - {j}| < |c| by { assert c.Keys == (c - {j}).Keys + {j}; }
      assert |c - {k}| < |c| by { assert c.Keys == (c - {k}).Keys + {k}; }
      SumCountsRemove(c - {j}, k);
      SumCountsRemove(c - {k}, j);
    }
  }

  /** `teams[t] += 1` adds one to the sum. */
  lemma SumCountsBump(c: Counts, t: string)
    requires t in c
    ensures SumCounts(c[t := c[t] + 1]) == SumCounts(c) + 1
  {
    SumCountsRemove(c, t);
    SumCountsRemove(c[t := c[t] + 1], t);
    assert c[t := c[t] + 1] - {t} == c - {t};
  }

  lemma {:induction false} SumCountsZero(c: Counts)
    requires forall k :: k in c ==> c[k] == 0
    ensures SumCounts(c) == 0
    decreases |c|
  {
    if c != map[] {
      var k :| k in c;
      SumCountsRemove(c, k);
      assert |c - {k}| < |c| by { assert c.Keys == (c - {k}).Keys + {k}; }
      SumCountsZero(c - {k});
    }
  }

  /** The inner loop of each getter: `teams[t] += 1` for every pick in
      order, a KeyError at the first symbol that is not a key. */
  function AddPicks(c: Counts, picks: seq<string>): Result<Counts> {
    if picks == [] then Ok(c)
    else
      match AddPicks(c, picks[..|picks| - 1])
      case Err(e) => Err(e)
      case Ok(prev) =>
        var t := picks[|picks| - 1];
        if t in prev then Ok(prev[t := prev[t] + 1]) else Err(KeyError)
  }

  /** Adding picks fails, with a KeyError, exactly when a pick is not a
      key, and otherwise keeps the keys. */
  lemma {:induction false} AddPicksMeaning(c: Counts, picks: seq<string>)
    ensures AddPicks(c, picks).Ok? <==> forall i :: 0 <= i < |picks| ==> picks[i] in c
    ensures AddPicks(c, picks).Err? ==> AddPicks(c, picks).error == KeyError
    ensures AddPicks(c, picks).Ok? ==> AddPicks(c, picks).value.Keys == c.Keys
  {
    if picks != [] {
      var prefix := picks[..|picks| - 1];
      AddPicksMeaning(c, prefix);
      assert forall i :: 0 <= i < |prefix| ==> prefix[i] == picks[i];
    }
  }

  /** Adding picks that succeeds adds to each key its number of occurrences
      among the picks, so the sum grows by the number of picks. */
  lemma {:induction false} AddPicksCounts(c: Counts, picks: seq<string>)
    requires AddPicks(c, picks).Ok?
    ensures AddPicks(c, picks).value.Keys == c.Keys
    ensures forall k :: k in c ==> AddPicks(c, picks).value[k] == c[k] + Occurrences(k, picks)
    ensures SumCounts(AddPicks(c, picks).value) == SumCounts(c) + |picks|
  {
    if picks != [] {
      var prefix := picks[..|picks| - 1];
      var t := picks[|picks| - 1];
      AddPicksMeaning(c, picks);
      AddPicksCounts(c, prefix);
      var prev := AddPicks(c, prefix).value;
      SumCountsBump(prev, t);
    }
  }

  /** The outer loop of `playoff_probabilities` and
      `top_seed_probabilities`: season by season, the season's picks (or its
      error) are added, stopping at the first error. */
  function CountAll(c: Counts, per: seq<Result<seq<string>>>): Result<Counts> {
    if per == [] then Ok(c)
    else
      match CountAll(c, per[..|per| - 1])
      case Err(e) => Err(e)
      case Ok(prev) =>
        match per[|per| - 1]
        case Err(e) => Err(e)
        case Ok(picks) => AddPicks(prev, picks)
  }

  /** The picks of every season, one after another. */
  function AllPicks(per: seq<Result<seq<string>>>): seq<string> {
    if per == [] then []
    else AllPicks(per[..|per| - 1]) + (if per[|per| - 1].Ok? then per[|per| - 1].value else [])
  }

  /** Counting season by season succeeds exactly when every season has
      picks and every pick is a key; each key then gains its number of
      occurrences over all seasons, and the sum grows by the number of
      picks. */
  lemma {:induction false} CountAllMeaning(c: Counts, per: seq<Result<seq<string>>>)
    ensures CountAll(c, per).Ok? <==>
      (forall i :: 0 <= i < |per| ==> per[i].Ok?) &&
      forall j :: 0 <= j < |AllPicks(per)| ==> AllPicks(per)[j] in c
    ensures CountAll(c, per).Ok? ==> CountAll(c, per).value.Keys == c.Keys
    ensures CountAll(c, per).Ok? ==>
      forall k :: k in c ==> CountAll(c, per).value[k] == c[k] + Occurrences(k, AllPicks(per))
    ensures CountAll(c, per).Ok? ==> SumCounts(CountAll(c, per).value) == SumCounts(c) + |AllPicks(per)|
  {
    if per != [] {
      var prefix := per[..|per| - 1];
      var last := per[|per| - 1];
      CountAllMeaning(c, prefix);
      assert forall i :: 0 <= i < |prefix| ==> prefix[i] == per[i];
      var before := AllPicks(prefix);
      var added := if last.Ok? then last.value else [];
      assert AllPicks(per) == before + added;
      assert forall j :: 0 <= j < |before| ==> AllPicks(per)[j] == before[j];
      assert forall j :: 0 <= j < |added| ==> AllPicks(per)[|before| + j] == added[j];
      if CountAll(c, prefix).Ok? && last.Ok? {
        var prev := CountAll(c, prefix).value;
        AddPicksMeaning(prev, added);
        if AddPicks(prev, added).Ok? {
          AddPicksCounts(prev, added);
        }
        forall k | k in c
          ensures Occurrences(k, AllPicks(per)) == Occurrences(k, before) + Occurrences(k, added)
        {
          OccurrencesAppend(k, before, added);
        }
        if !(forall j :: 0 <= j < |AllPicks(per)| ==> AllPicks(per)[j] in c) {
          var j :| 0 <= j < |AllPicks(per)| && AllPicks(per)[j] !in c;
          if j >= |before| {
            assert added[j - |before|] !in prev;
          }
        }
      }
    }
  }

  /** The final dictionary comprehension: each count divided by the number
      of seasons, a ZeroDivisionError when there are none but there is a
      team to divide for. */
  function Shares(c: Counts, n: nat): (r: Result<map<string, real>>)
    ensures r.Err? <==> n == 0 && c != map[]
    ensures r.Err? ==> r.error == ZeroDivisionError
    ensures r.Ok? ==> r.value.Keys == c.Keys
    ensures r.Ok? ==> forall k :: k in c ==> r.value[k] * (n as real) == c[k] as real
  {
    if n == 0 then
      (if c == map[] then Ok(map[]) else Err(ZeroDivisionError))
    else
      Ok(map k | k in c :: c[k] as real / n as real)
  }

  /** The counting of a getter followed by the division. */
  function SharesOf(counted: Result<Counts>, n: nat): Result<map<string, real>> {
    match counted
    case Err(e) => Err(e)
    case Ok(c) => Shares(c, n)
  }

  /** The team symbols of the first `n` rows (`rows[:n]`). */
  function Top(rows: seq<Row>, n: nat): (r: seq<string>)
    ensures |r| == if |rows| < n then |rows| else n
    ensures forall i :: 0 <= i < |r| ==> r[i] == rows[i].team
  {
    var m := if |rows| < n then |rows| else n;
    seq(m, i requires 0 <= i < m => rows[i].team)
  }

  /** One season of `playoff_probabilities`: the first eight rows of the
      West, then of the East. */
  function PlayoffPicks(st: SeasonTable): Result<seq<string>> {
    match st
    case Err(e) => Err(e)
    case Ok((west, east)) => Ok(Top(west, 8) + Top(east, 8))
  }

  /** One season of `top_seed_probabilities`: the first row of each side,
      an IndexError when a side is empty. */
  function TopSeedPicks(st: SeasonTable): Result<seq<string>> {
    match st
    case Err(e) => Err(e)
    case Ok((west, east)) =>
      if west == [] || east == [] then Err(IndexError) else Ok([west[0].team, east[0].team])
  }

  function PlayoffPicksAll(sts: seq<SeasonTable>): (r: seq<Result<seq<string>>>)
    ensures |r| == |sts| && forall i :: 0 <= i < |sts| ==> r[i] == PlayoffPicks(sts[i])
  {
    seq(|sts|, i requires 0 <= i < |sts| => PlayoffPicks(sts[i]))
  }

  function TopSeedPicksAll(sts: seq<SeasonTable>): (r: seq<Result<seq<string>>>)
    ensures |r| == |sts| && forall i :: 0 <= i < |sts| ==> r[i] == TopSeedPicks(sts[i])
  {
    seq(|sts|, i requires 0 <= i < |sts| => TopSeedPicks(sts[i]))
  }

  /** Playoff spots handed out: at most eight per side per season. */
  function Spots(sts: seq<SeasonTable>): nat {
    if sts == [] then 0
    else
      var last := sts[|sts| - 1];
      Spots(sts[..|sts| - 1]) + (if last.Ok? then |Top(last.value.0, 8)| + |Top(last.value.1, 8)| else 0)
  }

  lemma {:induction false} PlayoffPicksCount(sts: seq<SeasonTable>)
    ensures |AllPicks(PlayoffPicksAll(sts))| == Spots(sts)
  {
    if sts != [] {
      PlayoffPicksCount(sts[..|sts| - 1]);
      assert PlayoffPicksAll(sts)[..|sts| - 1] == PlayoffPicksAll(sts[..|sts| - 1]);
    }
  }

  /** `playoff_probabilities` counted: when it succeeds, every team's count
      is the number of its playoff spots over all seasons, and the counts
      add up to the spots handed out; with eight teams on each side, to
      sixteen per season. */
  lemma PlayoffCounts(symbols: seq<string>, sts: seq<SeasonTable>)
    ensures var r := CountAll(ZeroCounts(symbols), PlayoffPicksAll(sts));
      r.Ok? ==> (r.value.Keys == ZeroCounts(symbols).Keys &&
        (forall k :: k in r.value ==> r.value[k] == Occurrences(k, AllPicks(PlayoffPicksAll(sts)))) &&
        SumCounts(r.value) == Spots(sts))
  {
    CountAllMeaning(ZeroCounts(symbols), PlayoffPicksAll(sts));
    SumCountsZero(ZeroCounts(symbols));
    PlayoffPicksCount(sts);
  }

  lemma {:induction false} FullSpots(sts: seq<SeasonTable>)
    requires forall i :: 0 <= i < |sts| ==> sts[i].Ok? && |sts[i].value.0| >= 8 && |sts[i].value.1| >= 8
    ensures Spots(sts) == 16 * |sts|
  {
    if sts != [] {
      FullSpots(sts[..|sts| - 1]);
    }
  }

  lemma {:induction false} TopSeedPicksCount(sts: seq<SeasonTable>)
    requires forall i :: 0 <= i < |sts| ==> TopSeedPicks(sts[i]).Ok?
    ensures |AllPicks(TopSeedPicksAll(sts))| == 2 * |sts|
  {
    if sts != [] {
      TopSeedPicksCount(sts[..|sts| - 1]);
      assert TopSeedPicksAll(sts)[..|sts| - 1] == TopSeedPicksAll(sts[..|sts| - 1]);
    }
  }

  /** `top_seed_probabilities` counted: when it succeeds, every team's
      count is the number of seasons it leads a side, and the counts add up
      to two per season. */
  lemma TopSeedCounts(symbols: seq<string>, sts: seq<SeasonTable>)
    ensures var r := CountAll(ZeroCounts(symbols), TopSeedPicksAll(sts));
      r.Ok? ==> (r.value.Keys == ZeroCounts(symbols).Keys &&
        (forall k :: k in r.value ==> r.value[k] == Occurrences(k, AllPicks(TopSeedPicksAll(sts)))) &&
        SumCounts(r.value) == 2 * |sts|)
  {
    var per := TopSeedPicksAll(sts);
    CountAllMeaning(ZeroCounts(symbols), per);
    SumCountsZero(ZeroCounts(symbols));
    if CountAll(ZeroCounts(symbols), per).Ok? {
      TopSeedPicksCount(sts);
    }
  }

  // ---------------------------------------------------------------------
  // Championship counts.

  /** The playoff seeds of one side: each row's team with its current
      rating (`standings[i][2]` is the shared team object). */
  function Seeds(rows: seq<Row>, ratings: map<string, real>): (r: seq<Contender>)
    requires forall i :: 0 <= i < |rows| ==> rows[i].team in ratings
    ensures |r| == |rows|
    ensures forall i :: 0 <= i < |rows| ==> r[i].symbol == rows[i].team && r[i].rating == ratings[rows[i].team]
  {
    seq(|rows|, i requires 0 <= i < |rows| => Contender(rows[i].team, ratings[rows[i].team]))
  }

  /** Every team of a season's standings has a rating. */
  predicate Rated(st: SeasonTable, ratings: map<string, real>) {
    st.Ok? ==>
      (forall i :: 0 <= i < |st.value.0| ==> st.value.0[i].team in ratings) &&
      (forall i :: 0 <= i < |st.value.1| ==> st.value.1[i].team in ratings)
  }

  /** One season of `get_championship_probabilities`: the playoffs from
      the season's standings, then `teams[champion.symbol] += 1`. */
  ghost function ChampionSeason(e: Engine, ratings: map<string, real>, counts: Counts, st: SeasonTable,
                                draws: nat -> real, pos: nat): (r: (Result<Counts>, nat))
    requires ValidEngine(e) && Fair(draws) && Rated(st, ratings)
    ensures r.1 >= pos
  {
    match st
    case Err(err) => (Err(err), pos)
    case Ok((west, east)) =>
      var (champion, next) := PlayoffsResult(e, Seeds(west, ratings), Seeds(east, ratings), draws, pos);
      if champion.Err? then (Err(champion.error), next)
      else if champion.value.symbol in counts then
        (Ok(counts[champion.value.symbol := counts[champion.value.symbol] + 1]), next)
      else (Err(KeyError), next)
  }

  /** `get_championship_probabilities` counted: season by season, stopping
      at the first error with the stream position reached there. */
  ghost function ChampionTally(e: Engine, ratings: map<string, real>, c: Counts, sts: seq<SeasonTable>,
                               draws: nat -> real, pos: nat): (r: (Result<Counts>, nat))
    requires ValidEngine(e) && Fair(draws)
    requires forall i :: 0 <= i < |sts| ==> Rated(sts[i], ratings)
    ensures r.1 >= pos
  {
    if sts == [] then (Ok(c), pos)
    else
      var prev := ChampionTally(e, ratings, c, sts[..|sts| - 1], draws, pos);
      if prev.0.Err? then prev
      else ChampionSeason(e, ratings, prev.0.value, sts[|sts| - 1], draws, prev.1)
  }

  /** A season that crowns a champion adds exactly one to the counts. */
  lemma ChampionSeasonCounts(e: Engine, ratings: map<string, real>, counts: Counts, st: SeasonTable,
                             draws: nat -> real, pos: nat)
    requires ValidEngine(e) && Fair(draws) && Rated(st, ratings)
    ensures var r := ChampionSeason(e, ratings, counts, st, draws, pos).0;
      r.Ok? ==> r.value.Keys == counts.Keys && SumCounts(r.value) == SumCounts(counts) + 1
  {
    if st.Ok? {
      var champion := PlayoffsResult(e, Seeds(st.value.0, ratings), Seeds(st.value.1, ratings), draws, pos).0;
      if champion.Ok? && champion.value.symbol in counts {
        SumCountsBump(counts, champion.value.symbol);
      }
    }
  }

  /** `get_championship_probabilities` counted: when it succeeds, every
      season has crowned exactly one champion, so the counts add up to the
      number of seasons. */
  lemma {:induction false} ChampionCounts(e: Engine, ratings: map<string, real>, c: Counts, sts: seq<SeasonTable>,
                                          draws: nat -> real, pos: nat)
    requires ValidEngine(e) && Fair(draws)
    requires forall i :: 0 <= i < |sts| ==> Rated(sts[i], ratings)
    ensures var r := ChampionTally(e, ratings, c, sts, draws, pos).0;
      r.Ok? ==> r.value.Keys == c.Keys && SumCounts(r.value) == SumCounts(c) + |sts|
  {
    if sts != [] {
      var prefix := sts[..|sts| - 1];
      ChampionCounts(e, ratings, c, prefix, draws, pos);
      var prev := ChampionTally(e, ratings, c, prefix, draws, pos);
      if prev.0.Ok? {
        ChampionSeasonCounts(e, ratings, prev.0.value, sts[|sts| - 1], draws, prev.1);
      }
    }
  }

  // ---------------------------------------------------------------------
  // A loop that stops at its first error has nothing left to do.

  lemma {:induction false} AddPicksStops(c: Counts, picks: seq<string>, k: nat)
    requires k <= |picks| && AddPicks(c, picks[..k]).Err?
    ensures AddPicks(c, picks) == AddPicks(c, picks[..k])
    decreases |picks| - k
  {
    if k < |picks| {
      assert picks[..k + 1][..k] == picks[..k];
      AddPicksStops(c, picks, k + 1);
    } else {
      assert picks[..k] == picks;
    }
  }

  lemma {:induction false} CountAllStops(c: Counts, per: seq<Result<seq<string>>>, k: nat)
    requires k <= |per| && CountAll(c, per[..k]).Err?
    ensures CountAll(c, per) == CountAll(c, per[..k])
    decreases |per| - k
  {
    if k < |per| {
      assert per[..k + 1][..k] == per[..k];
      CountAllStops(c, per, k + 1);
    } else {
      assert per[..k] == per;
    }
  }

  lemma {:induction false} ChampionTallyStops(e: Engine, ratings: map<string, real>, c: Counts, sts: seq<SeasonTable>,
                                              draws: nat -> real, pos: nat, k: nat)
    requires ValidEngine(e) && Fair(draws)
    requires forall i :: 0 <= i < |sts| ==> Rated(sts[i], ratings)
    requires k <= |sts| && ChampionTally(e, ratings, c, sts[..k], draws, pos).0.Err?
    ensures ChampionTally(e, ratings, c, sts, draws, pos) == ChampionTally(e, ratings, c, sts[..k], draws, pos)
    decreases |sts| - k
  {
    if k < |sts| {
      assert sts[..k + 1][..k] == sts[..k];
      ChampionTallyStops(e, ratings, c, sts, draws, pos, k + 1);
    } else {
      assert sts[..k] == sts;
    }
  }

  /** `for row in picks: teams[row] += 1`, stopping with a KeyError at a
      symbol that is not a key. */
  method AddEach(counts: Counts, picks: seq<string>) returns (r: Result<Counts>)
    ensures r == AddPicks(counts, picks)
  {
    var c := counts;
    for j := 0 to |picks|
      invariant AddPicks(counts, picks[..j]) == Ok(c)
    {
      assert picks[..j + 1][..j] == picks[..j];
      if picks[j] !in c {
        AddPicksStops(counts, picks, j + 1);
        return Err(KeyError);
      }
      c := c[picks[j] := c[picks[j]] + 1];
    }
    assert picks[..|picks|] == picks;
    r := Ok(c);
  }

  /** The counting loop of `playoff_probabilities` over the seasons'
      standings. */
  method CountPlayoffPicks(symbols: seq<string>, sts: seq<SeasonTable>) returns (r: Result<Counts>)
    ensures r == CountAll(ZeroCounts(symbols), PlayoffPicksAll(sts))
  {
    ghost var per := PlayoffPicksAll(sts);
    var counts := ZeroCounts(symbols);
    for i := 0 to |sts|
      invariant CountAll(ZeroCounts(symbols), per[..i]) == Ok(counts)
    {
      assert per[..i + 1][..i] == per[..i];
      if sts[i].Err? {
        CountAllStops(ZeroCounts(symbols), per, i + 1);
        return Err(sts[i].error);
      }
      var (west, east) := sts[i].value;
      var added := AddEach(counts, Top(west, 8) + Top(east, 8));
      if added.Err? {
        CountAllStops(ZeroCounts(symbols), per, i + 1);
        return Err(added.error);
      }
      counts := added.value;
    }
    assert per[..|per|] == per;
    r := Ok(counts);
  }

  /** The counting loop of `top_seed_probabilities` over the seasons'
      standings. */
  method CountTopSeedPicks(symbols: seq<string>, sts: seq<SeasonTable>) returns (r: Result<Counts>)
    ensures r == CountAll(ZeroCounts(symbols), TopSeedPicksAll(sts))
  {
    ghost var per := TopSeedPicksAll(sts);
    var counts := ZeroCounts(symbols);
    for i := 0 to |sts|
      invariant CountAll(ZeroCounts(symbols), per[..i]) == Ok(counts)
    {
      assert per[..i + 1][..i] == per[..i];
      if sts[i].Err? {
        CountAllStops(ZeroCounts(symbols), per, i + 1);
        return Err(sts[i].error);
      }
      var (west, east) := sts[i].value;
      if west == [] || east == [] {
        CountAllStops(ZeroCounts(symbols), per, i + 1);
        return Err(IndexError);
      }
      var added := AddEach(counts, [west[0].team, east[0].team]);
      if added.Err? {
        CountAllStops(ZeroCounts(symbols), per, i + 1);
        return Err(added.error);
      }
      counts := added.value;
    }
    assert per[..|per|] == per;
    r := Ok(counts);
  }

  /** The counting loop of `get_championship_probabilities`: one playoff
      run per season, seeded from its standings. */
  method CountChampions(e: Engine, ratings: map<string, real>, symbols: seq<string>, sts: seq<SeasonTable>,
                        draws: nat -> real, pos: nat) returns (r: Result<Counts>, next: nat)
    requires ValidEngine(e) && Fair(draws)
    requires forall i :: 0 <= i < |sts| ==> Rated(sts[i], ratings)
    ensures (r, next) == ChampionTally(e, ratings, ZeroCounts(symbols), sts, draws, pos)
  {
    var counts := ZeroCounts(symbols);
    next := pos;
    for i := 0 to |sts|
      invariant ChampionTally(e, ratings, ZeroCounts(symbols), sts[..i], draws, pos) == (Ok(counts), next)
    {
      assert sts[..i + 1][..i] == sts[..i];
      if sts[i].Err? {
        ChampionTallyStops(e, ratings, ZeroCounts(symbols), sts, draws, pos, i + 1);
        return Err(sts[i].error), next;
      }
      var (west, east) := sts[i].value;
      var champion;
      champion, next := SimulatePlayoffs(e, Seeds(west, ratings), Seeds(east, ratings), draws, next);
      if champion.Err? {
        ChampionTallyStops(e, ratings, ZeroCounts(symbols), sts, draws, pos, i + 1);
        return Err(champion.error), next;
      }
      if champion.value.symbol !in counts {
        ChampionTallyStops(e, ratings, ZeroCounts(symbols), sts, draws, pos, i + 1);
        return Err(KeyError), next;
      }
      counts := counts[champion.value.symbol := counts[champion.value.symbol] + 1];
    }
    assert sts[..|sts|] == sts;
    r := Ok(counts);
  }
}
