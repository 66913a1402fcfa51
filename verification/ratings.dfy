/** A team's rating bookkeeping (class Team of nbaelo/elo.py): a dictionary
    from game date to rating change, kept in insertion order like a Python
    dict, plus win and loss counters. Dates are integer timestamps in seconds;
    the calendar day of a timestamp is its floor division by SecondsPerDay. */
module Ratings {
  import opened Wrappers

  const SecondsPerDay: int := 86400
  const DefaultStartRating: real := 1500.0

  datatype Conference = West | East

  /** The rating-change dictionary: (date, change) pairs in insertion order. */
  type Changes = seq<(int, real)>

  function DayOf(t: int): int { t / SecondsPerDay }

  function Dates(s: Changes): set<int> { set i | 0 <= i < |s| :: s[i].0 }

  lemma DatesCons(x: (int, real), s: Changes)
    ensures Dates([x] + s) == {x.0} + Dates(s)
  {
    var r := [x] + s;
    forall d | d in Dates(r) ensures d in {x.0} + Dates(s) {
      var i :| 0 <= i < |r| && r[i].0 == d;
      if i > 0 { assert s[i - 1].0 == d; }
    }
    forall d | d in {x.0} + Dates(s) ensures d in Dates(r) {
      if d == x.0 {
        assert r[0].0 == d;
      } else {
        var i :| 0 <= i < |s| && s[i].0 == d;
        assert r[i + 1].0 == d;
      }
    }
  }

  /** No date appears twice: the dictionary's keys are unique. */
  predicate DistinctDates(s: Changes) {
    forall i, j :: 0 <= i < j < |s| ==> s[i].0 != s[j].0
  }

  /** The change stored for `date`, or 0 when the date has none. */
  function DeltaAt(s: Changes, date: int): real {
    if s == [] then 0.0
    else if s[0].0 == date then s[0].1
    else DeltaAt(s[1..], date)
  }

  /** Sum of all stored changes. */
  function SumDeltas(s: Changes): real {
    if s == [] then 0.0 else s[0].1 + SumDeltas(s[1..])
  }

  /** Sum of the changes whose date falls on calendar day `day`. */
  function SumOnDay(s: Changes, day: int): real {
    if s == [] then 0.0
    else (if DayOf(s[0].0) == day then s[0].1 else 0.0) + SumOnDay(s[1..], day)
  }

  /** Sum of the changes whose date falls on or before calendar day `day`. */
  function SumThroughDay(s: Changes, day: int): real {
    if s == [] then 0.0
    else (if DayOf(s[0].0) <= day then s[0].1 else 0.0) + SumThroughDay(s[1..], day)
  }

  lemma DistinctTail(s: Changes)
    requires DistinctDates(s) && s != []
    ensures DistinctDates(s[1..]) && s[0].0 !in Dates(s[1..])
  {
    forall i | 0 <= i < |s[1..]| ensures s[1..][i].0 != s[0].0 {
      assert s[1..][i] == s[i + 1];
    }
  }

  lemma DeltaAtAbsent(s: Changes, date: int)
    requires date !in Dates(s)
    ensures DeltaAt(s, date) == 0.0
  {
    if s != [] {
      assert s[0].0 in Dates(s);
      assert Dates(s[1..]) <= Dates(s) by {
        forall d | d in Dates(s[1..]) ensures d in Dates(s) {
          var i :| 0 <= i < |s[1..]| && s[1..][i].0 == d;
          assert s[i + 1].0 == d;
        }
      }
      DeltaAtAbsent(s[1..], date);
    }
  }

  /** Python's `d[date] = change` on an insertion-ordered dictionary. */
  function Put(s: Changes, date: int, change: real): Changes {
    if s == [] then [(date, change)]
    else if s[0].0 == date then [(date, change)] + s[1..]
    else [s[0]] + Put(s[1..], date, change)
  }

  /** `Put` adds `date` to the keys and keeps them unique. */
  lemma {:induction false} PutKeys(s: Changes, date: int, change: real)
    ensures Dates(Put(s, date, change)) == Dates(s) + {date}
    ensures DistinctDates(s) ==> DistinctDates(Put(s, date, change))
  {
    if s == [] {
      DatesCons((date, change), []);
      assert [(date, change)] + [] == [(date, change)];
    } else {
      assert s == [s[0]] + s[1..];
      DatesCons(s[0], s[1..]);
      assert DistinctDates(s) ==> DistinctDates(s[1..]) && s[0].0 !in Dates(s[1..]) by {
        if DistinctDates(s) { DistinctTail(s); }
      }
      if s[0].0 == date {
        DatesCons((date, change), s[1..]);
      } else {
        PutKeys(s[1..], date, change);
        DatesCons(s[0], Put(s[1..], date, change));
      }
    }
  }

  /** Insertion order: an existing date keeps its position and gets the new
      value (an overwrite, not an addition), every other entry stays where it
      was, and a new date is appended at the end. */
  lemma {:induction false} PutOrder(s: Changes, date: int, change: real)
    requires DistinctDates(s)
    ensures var r := Put(s, date, change);
      |r| == (if date in Dates(s) then |s| else |s| + 1) &&
      (forall i :: 0 <= i < |s| ==> r[i].0 == s[i].0) &&
      (forall i :: 0 <= i < |s| && s[i].0 == date ==> r[i] == (date, change)) &&
      (forall i :: 0 <= i < |s| && s[i].0 != date ==> r[i] == s[i]) &&
      (date !in Dates(s) ==> r[|s|] == (date, change))
  {
    if s != [] {
      assert s == [s[0]] + s[1..];
      DatesCons(s[0], s[1..]);
      DistinctTail(s);
      if s[0].0 != date {
        PutOrder(s[1..], date, change);
      }
    }
  }

  /** After `Put`, the stored change for `date` is the new one. */
  lemma {:induction false} PutSets(s: Changes, date: int, change: real)
    ensures DeltaAt(Put(s, date, change), date) == change
  {
    if s != [] && s[0].0 != date {
      PutSets(s[1..], date, change);
    }
  }

  /** `Put` moves the total by the difference between the new change and the
      overwritten one. */
  lemma {:induction false} PutSum(s: Changes, date: int, change: real)
    requires DistinctDates(s)
    ensures SumDeltas(Put(s, date, change)) == SumDeltas(s) - DeltaAt(s, date) + change
  {
    if s == [] {
    } else if s[0].0 == date {
      DistinctTail(s);
      DeltaAtAbsent(s[1..], date);
    } else {
      DistinctTail(s);
      PutSum(s[1..], date, change);
    }
  }

  /** `Put` leaves the change stored for every other date alone. */
  lemma {:induction false} PutKeeps(s: Changes, date: int, change: real, other: int)
    requires other != date
    ensures DeltaAt(Put(s, date, change), other) == DeltaAt(s, other)
  {
    if s != [] && s[0].0 != date {
      PutKeeps(s[1..], date, change, other);
    }
  }

  /** A team's state as a value: what `Team` holds that the engine updates. */
  datatype TeamRec = TeamRec(startRating: real, changes: Changes, wins: nat, losses: nat) {
    /** `current_rating`: the start rating plus every recorded change. */
    function Rating(): real { startRating + SumDeltas(changes) }

    /** `update_rating(date, change, is_win)` applied to the value. */
    function Record(date: int, change: real, isWin: bool): TeamRec {
      TeamRec(startRating, Put(changes, date, change),
              if isWin then wins + 1 else wins,
              if isWin then losses else losses + 1)
    }
  }

  /** Recording a result sets the rating to the old rating minus the change
      previously stored for that date plus the new change, and adds exactly
      one game to the record, on the side the result says. */
  lemma RecordEffect(t: TeamRec, date: int, change: real, isWin: bool)
    requires DistinctDates(t.changes)
    ensures t.Record(date, change, isWin).Rating() == t.Rating() - DeltaAt(t.changes, date) + change
    ensures DeltaAt(t.Record(date, change, isWin).changes, date) == change
    ensures t.Record(date, change, isWin).wins + t.Record(date, change, isWin).losses == t.wins + t.losses + 1
    ensures t.Record(date, change, isWin).wins == t.wins + (if isWin then 1 else 0)
  {
    PutSets(t.changes, date, change);
    PutSum(t.changes, date, change);
  }

  // ---------------------------------------------------------------------
  // change_past_games: the changes sorted newest first, the first n summed.

  predicate NewestFirstOrder(s: Changes) {
    forall i, j :: 0 <= i < j < |s| ==> s[i].0 >= s[j].0
  }

  function InsertNewest(e: (int, real), s: Changes): (r: Changes)
    ensures |r| == |s| + 1
    ensures multiset(r) == multiset(s) + multiset{e}
    ensures SumDeltas(r) == e.1 + SumDeltas(s)
  {
    if s == [] || e.0 >= s[0].0 then [e] + s
    else
      assert s == [s[0]] + s[1..];
      [s[0]] + InsertNewest(e, s[1..])
  }

  lemma {:induction false} InsertNewestOrder(e: (int, real), s: Changes)
    requires NewestFirstOrder(s)
    ensures NewestFirstOrder(InsertNewest(e, s))
    ensures s != [] ==> InsertNewest(e, s)[0] == e || InsertNewest(e, s)[0] == s[0]
  {
    if s != [] && e.0 < s[0].0 {
      var rest := InsertNewest(e, s[1..]);
      assert NewestFirstOrder(s[1..]) by {
        forall i, j | 0 <= i < j < |s[1..]| ensures s[1..][i].0 >= s[1..][j].0 {
          assert s[1..][i] == s[i + 1] && s[1..][j] == s[j + 1];
        }
      }
      InsertNewestOrder(e, s[1..]);
      var r := [s[0]] + rest;
      assert rest[0].0 <= s[0].0 by {
        if s[1..] != [] { assert s[1..][0] == s[1]; }
      }
      forall i, j | 0 <= i < j < |r| ensures r[i].0 >= r[j].0 {
        if i > 0 {
          assert r[i] == rest[i - 1] && r[j] == rest[j - 1];
        } else {
          assert r[j] == rest[j - 1];
          assert rest[0].0 >= rest[j - 1].0;
        }
      }
    }
  }

  /** The first entry of a newest-first permutation of `s` carries the
      latest date of `s`. */
  lemma HeadIsLatest(r: Changes, s: Changes)
    requires NewestFirstOrder(r) && multiset(r) == multiset(s) && s != []
    ensures r != [] && r[0] in multiset(s)
    ensures forall i :: 0 <= i < |s| ==> s[i].0 <= r[0].0
  {
    assert |r| == |s| by {
      assert |multiset(r)| == |multiset(s)|;
    }
    assert r[0] in multiset(r);
    forall i | 0 <= i < |s| ensures s[i].0 <= r[0].0 {
      assert s[i] in multiset(r);
      var j :| 0 <= j < |r| && r[j] == s[i];
    }
  }

  /** `reversed(sorted(items, key=date))`: the changes ordered newest first.
      With distinct dates this is the same as sorting on the date descending. */
  function NewestFirst(s: Changes): (r: Changes)
    ensures |r| == |s|
    ensures NewestFirstOrder(r)
    ensures multiset(r) == multiset(s)
    ensures SumDeltas(r) == SumDeltas(s)
  {
    if s == [] then []
    else
      assert s == [s[0]] + s[1..];
      InsertNewestOrder(s[0], NewestFirst(s[1..]));
      InsertNewest(s[0], NewestFirst(s[1..]))
  }

  /** `sum(rev[i][1] for i in range(n) if i < len(rev))`. */
  function RecentChange(s: Changes, n: int): real {
    var sorted := NewestFirst(s);
    SumDeltas(sorted[..if n < |sorted| then (if n < 0 then 0 else n) else |sorted|])
  }

  function MaxDate(s: Changes): (m: int)
    requires s != []
    ensures m in Dates(s)
    ensures forall i :: 0 <= i < |s| ==> s[i].0 <= m
  {
    if |s| == 1 then s[0].0
    else
      var m := MaxDate(s[1..]);
      assert forall i :: 1 <= i < |s| ==> s[i] == s[1..][i - 1];
      assert m in Dates(s) by {
        var i :| 0 <= i < |s[1..]| && s[1..][i].0 == m;
        assert s[i + 1].0 == m;
      }
      if s[0].0 >= m then s[0].0 else m
  }

  function MinDate(s: Changes): (m: int)
    requires s != []
    ensures m in Dates(s)
    ensures forall i :: 0 <= i < |s| ==> m <= s[i].0
  {
    if |s| == 1 then s[0].0
    else
      var m := MinDate(s[1..]);
      assert forall i :: 1 <= i < |s| ==> s[i] == s[1..][i - 1];
      assert m in Dates(s) by {
        var i :| 0 <= i < |s[1..]| && s[1..][i].0 == m;
        assert s[i + 1].0 == m;
      }
      if s[0].0 <= m then s[0].0 else m
  }

  /** With n at least the number of recorded dates, the recent change is the
      whole change since the start. */
  lemma RecentChangeAll(s: Changes, n: int)
    requires n >= |s|
    ensures RecentChange(s, n) == SumDeltas(s)
  {
    var sorted := NewestFirst(s);
    assert sorted[..|sorted|] == sorted;
  }

  /** With n = 1 the recent change is the change on the latest recorded date. */
  lemma RecentChangeLatest(s: Changes)
    requires DistinctDates(s) && s != []
    ensures RecentChange(s, 1) == DeltaAt(s, MaxDate(s))
  {
    LatestFirst(s, NewestFirst(s));
  }

  lemma LatestFirst(s: Changes, sorted: Changes)
    requires DistinctDates(s) && s != [] && sorted == NewestFirst(s)
    ensures sorted != [] && SumDeltas(sorted[..1]) == DeltaAt(s, MaxDate(s))
  {
    HeadIsLatest(sorted, s);
    var top := sorted[0];
    var k :| 0 <= k < |s| && s[k] == top;
    var m :| 0 <= m < |s| && s[m].0 == MaxDate(s);
    assert top.0 == MaxDate(s);
    DeltaAtIndex(s, k);
    assert sorted[..1] == [top];
    assert SumDeltas(sorted[..1]) == top.1 + SumDeltas(sorted[..1][1..]);
  }

  lemma {:induction false} DeltaAtIndex(s: Changes, k: int)
    requires DistinctDates(s) && 0 <= k < |s|
    ensures DeltaAt(s, s[k].0) == s[k].1
  {
    if k > 0 {
      DistinctTail(s);
      assert s[k] == s[1..][k - 1];
      DeltaAtIndex(s[1..], k - 1);
    }
  }

  // ---------------------------------------------------------------------
  // rating_history: one cumulative value per calendar day.

  lemma {:induction false} SumOnDayAppend(s: Changes, e: (int, real), day: int)
    ensures SumOnDay(s + [e], day) == SumOnDay(s, day) + (if DayOf(e.0) == day then e.1 else 0.0)
  {
    if s != [] {
      assert (s + [e])[1..] == s[1..] + [e];
      SumOnDayAppend(s[1..], e, day);
    }
  }

  lemma {:induction false} SumThroughDayStep(s: Changes, day: int)
    ensures SumThroughDay(s, day) == SumThroughDay(s, day - 1) + SumOnDay(s, day)
  {
    if s != [] { SumThroughDayStep(s[1..], day); }
  }

  lemma {:induction false} SumThroughDayBefore(s: Changes, day: int)
    requires forall i :: 0 <= i < |s| ==> day < DayOf(s[i].0)
    ensures SumThroughDay(s, day) == 0.0
  {
    if s != [] {
      assert forall i :: 0 <= i < |s[1..]| ==> s[1..][i] == s[i + 1];
      SumThroughDayBefore(s[1..], day);
    }
  }

  lemma {:induction false} SumThroughDayAll(s: Changes, day: int)
    requires forall i :: 0 <= i < |s| ==> DayOf(s[i].0) <= day
    ensures SumThroughDay(s, day) == SumDeltas(s)
  {
    if s != [] {
      assert forall i :: 0 <= i < |s[1..]| ==> s[1..][i] == s[i + 1];
      SumThroughDayAll(s[1..], day);
    }
  }

  /** Every timestamp between `first` and `last` falls on one of the
      `(last - first) / SecondsPerDay + 2` days starting at `first`'s day. */
  lemma DayOffsetBound(first: int, t: int, last: int)
    requires first <= t <= last
    ensures 0 <= DayOf(t) - DayOf(first) < (last - first) / SecondsPerDay + 2
  {
    var D := SecondsPerDay;
    var qf, qt, ql := first / D, t / D, (last - first) / D;
    assert qf * D <= first < qf * D + D;
    assert qt * D <= t < qt * D + D;
    assert ql * D <= last - first < ql * D + D;
    assert qf <= qt;
    assert qt - qf < ql + 2;
  }

  /** Number of days `rating_history` lists: `(last - first).days + 2`. */
  function HistoryLength(s: Changes): int
    requires s != []
  {
    (MaxDate(s) - MinDate(s)) / SecondsPerDay + 2
  }

  /** The first loop of `rating_history`: one total per day of the window
      starting at `day0`, each the sum of the changes dated on that day. */
  method DayTotals(s: Changes, day0: int, n: nat) returns (totals: seq<real>)
    requires forall i :: 0 <= i < |s| ==> day0 <= DayOf(s[i].0) < day0 + n
    ensures |totals| == n
    ensures forall j :: 0 <= j < n ==> totals[j] == SumOnDay(s, day0 + j)
  {
    totals := seq(n, _ => 0.0);
    var k := 0;
    while k < |s|
      invariant 0 <= k <= |s|
      invariant |totals| == n
      invariant forall j :: 0 <= j < n ==> totals[j] == SumOnDay(s[..k], day0 + j)
    {
      var idx := DayOf(s[k].0) - day0;
      totals := totals[idx := totals[idx] + s[k].1];
      assert s[..k + 1] == s[..k] + [s[k]];
      forall j | 0 <= j < n ensures totals[j] == SumOnDay(s[..k + 1], day0 + j) {
        SumOnDayAppend(s[..k], s[k], day0 + j);
      }
      k := k + 1;
    }
    assert s[..k] == s;
  }

  /** The second loop of `rating_history`: the running sums of the day
      totals, each shifted by the start rating and paired with its day. */
  method RunningRatings(s: Changes, startRating: real, day0: int, totals: seq<real>) returns (h: seq<(int, real)>)
    requires SumThroughDay(s, day0 - 1) == 0.0
    requires forall j :: 0 <= j < |totals| ==> totals[j] == SumOnDay(s, day0 + j)
    ensures |h| == |totals|
    ensures forall i :: 0 <= i < |h| ==> h[i] == (day0 + i, startRating + SumThroughDay(s, day0 + i))
  {
    h := [];
    var acc := 0.0;
    var i := 0;
    while i < |totals|
      invariant 0 <= i <= |totals|
      invariant |h| == i
      invariant acc == SumThroughDay(s, day0 + i - 1)
      invariant forall j :: 0 <= j < i ==> h[j] == (day0 + j, startRating + SumThroughDay(s, day0 + j))
    {
      SumThroughDayStep(s, day0 + i);
      acc := acc + totals[i];
      h := h + [(day0 + i, startRating + acc)];
      i := i + 1;
    }
  }

  /** The mutable `Team` of nbaelo/elo.py. */
  class Team {
    const symbol: string
    const startDate: int
    const startRating: real
    const conference: Conference
    var ratingChanges: Changes
    var wins: nat
    var losses: nat

    ghost predicate Valid()
      reads this
    {
      ratingChanges != [] && DistinctDates(ratingChanges)
    }

    constructor (symbol: string, startDate: int, conference: Conference, startRating: real)
      ensures Valid()
      ensures this.symbol == symbol && this.startDate == startDate
      ensures this.conference == conference && this.startRating == startRating
      ensures ratingChanges == [(startDate, 0.0)] && wins == 0 && losses == 0
    {
      this.symbol := symbol;
      this.startDate := startDate;
      this.startRating := startRating;
      this.conference := conference;
      ratingChanges := [(startDate, 0.0)];
      wins := 0;
      losses := 0;
    }

    function Rec(): TeamRec
      reads this
    {
      TeamRec(startRating, ratingChanges, wins, losses)
    }

    /** `current_rating`. */
    function CurrentRating(): real
      reads this
    {
      Rec().Rating()
    }

    /** `current_record`. */
    function CurrentRecord(): (nat, nat)
      reads this
    {
      (wins, losses)
    }

    /** `update_rating`: overwrites the change stored for `date` and counts
        one win or one loss. */
    method UpdateRating(date: int, change: real, isWin: bool)
      requires Valid()
      modifies this
      ensures Valid()
      ensures Rec() == old(Rec()).Record(date, change, isWin)
      ensures DeltaAt(ratingChanges, date) == change
      ensures CurrentRating() == old(CurrentRating()) - old(DeltaAt(ratingChanges, date)) + change
      ensures wins + losses == old(wins + losses) + 1
    {
      RecordEffect(Rec(), date, change, isWin);
      PutKeys(ratingChanges, date, change);
      ratingChanges := Put(ratingChanges, date, change);
      if isWin {
        wins := wins + 1;
      } else {
        losses := losses + 1;
      }
    }

    /** `change_past_games(num_games)`: the sum of the `num_games` newest
        changes; a non-positive count fails the assertion. */
    function ChangePastGames(numGames: int): (r: Result<real>)
      reads this
      ensures r.Err? <==> numGames <= 0
      ensures r.Err? ==> r.error == AssertionError
      ensures r.Ok? ==> r.value == RecentChange(ratingChanges, numGames)
    {
      if numGames <= 0 then Err(AssertionError)
      else Ok(RecentChange(ratingChanges, numGames))
    }

    /** `rating_history`: for each of the `(last - first).days + 2` days from
        the earliest recorded date's day on, the start rating plus every
        change recorded on or before that day; the last value is the current
        rating. */
    method RatingHistory() returns (h: seq<(int, real)>)
      requires Valid()
      ensures |h| == HistoryLength(ratingChanges)
      ensures forall i :: 0 <= i < |h| ==>
        h[i] == (DayOf(MinDate(ratingChanges)) + i,
                 startRating + SumThroughDay(ratingChanges, DayOf(MinDate(ratingChanges)) + i))
      ensures h[|h| - 1].1 == CurrentRating()
    {
      var s := ratingChanges;
      var first := MinDate(s);
      var last := MaxDate(s);
      var day0 := DayOf(first);
      var n := (last - first) / SecondsPerDay + 2;
      forall i | 0 <= i < |s| ensures day0 <= DayOf(s[i].0) < day0 + n {
        DayOffsetBound(first, s[i].0, last);
      }
      var totals := DayTotals(s, day0, n);
      SumThroughDayBefore(s, day0 - 1);
      h := RunningRatings(s, startRating, day0, totals);
      SumThroughDayAll(s, day0 + n - 1);
    }
  }
}
