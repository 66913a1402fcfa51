/** The string handling of nbaelo/scrape.py: reading the team code and the
    season year out of a basketball-reference link, and building the URL
    of a team's schedule page. Python's `str.find`, negative slicing,
    `str.split`, `'/'.join`, `int` and `str` on integers, and ASCII
    `str.upper` are written out as functions on `string`. */
module Scrape {
  import opened Wrappers

  /** `GameScraper.DOMAIN`. */
  const Domain := "http://www.basketball-reference.com"

  /** The marker `parse_url` looks for. */
  const Marker := "teams/"

  // ---------------------------------------------------------------------
  // str.find and slicing

  /** `pat` occurs in `s` at index `i`. */
  predicate Occurs(s: string, pat: string, i: int) {
    0 <= i && i + |pat| <= |s| && s[i..i + |pat|] == pat
  }

  /** `s.find(pat)`: the first index at which `pat` occurs, or -1. */
  function Find(s: string, pat: string): int
    decreases |s|
  {
    if |s| < |pat| then -1
    else if s[..|pat|] == pat then 0
    else
      var r := Find(s[1..], pat);
      if r < 0 then -1 else r + 1
  }

  lemma OccursShift(s: string, pat: string, i: nat)
    requires |s| > 0
    ensures Occurs(s, pat, i + 1) <==> Occurs(s[1..], pat, i)
  {
    if 0 <= i && i + 1 + |pat| <= |s| {
      assert s[1..][i..i + |pat|] == s[i + 1..i + 1 + |pat|];
    }
  }

  /** `find` returns the first occurrence: -1 exactly when there is none,
      otherwise an index where `pat` occurs and before which it does not. */
  lemma {:induction false} FindMeaning(s: string, pat: string)
    ensures -1 <= Find(s, pat)
    ensures Find(s, pat) >= 0 ==> Occurs(s, pat, Find(s, pat))
    ensures forall i :: 0 <= i && (Find(s, pat) < 0 || i < Find(s, pat)) ==> !Occurs(s, pat, i)
    decreases |s|
  {
    if |s| < |pat| {
    } else if s[..|pat|] == pat {
    } else {
      FindMeaning(s[1..], pat);
      forall i | 0 <= i && (Find(s, pat) < 0 || i < Find(s, pat))
        ensures !Occurs(s, pat, i)
      {
        if i > 0 {
          OccursShift(s, pat, i - 1);
        }
      }
      if Find(s, pat) >= 0 {
        OccursShift(s, pat, Find(s, pat) - 1);
      }
    }
  }

  /** An occurrence with none before it is what `find` returns. */
  lemma FindIs(s: string, pat: string, k: int)
    requires Occurs(s, pat, k)
    requires forall i :: 0 <= i < k ==> !Occurs(s, pat, i)
    ensures Find(s, pat) == k
  {
    FindMeaning(s, pat);
  }

  /** Text appended after the first occurrence does not move it. */
  lemma FindExtend(s: string, pat: string, rest: string)
    requires Find(s, pat) >= 0
    ensures Find(s + rest, pat) == Find(s, pat)
  {
    FindMeaning(s, pat);
    var k := Find(s, pat);
    assert (s + rest)[k..k + |pat|] == s[k..k + |pat|];
    forall i | 0 <= i < k
      ensures !Occurs(s + rest, pat, i)
    {
      assert !Occurs(s, pat, i);
      assert i + |pat| <= |s|;
      assert (s + rest)[i..i + |pat|] == s[i..i + |pat|];
    }
    FindIs(s + rest, pat, k);
  }

  /** `s[k:]` for an index that may be negative: a negative start counts
      from the end, and one before the beginning starts at 0. */
  function SliceFrom(s: string, k: int): (r: string)
    ensures 0 <= k <= |s| ==> r == s[k..]
    ensures k < 0 ==> |r| <= -k && |r| <= |s| && r == s[|s| - |r|..]
  {
    if k >= 0 then (if k <= |s| then s[k..] else [])
    else if |s| + k >= 0 then s[|s| + k..]
    else s
  }

  // ---------------------------------------------------------------------
  // str.split and str.join

  /** `s.split(c)` for a one-character separator: the pieces between the
      separators, empty ones included. */
  function Split(s: string, c: char): (r: seq<string>)
    ensures |r| >= 1
  {
    if s == [] then [[]]
    else
      var rest := Split(s[1..], c);
      if s[0] == c then [[]] + rest else [[s[0]] + rest[0]] + rest[1..]
  }

  /** `c.join(parts)`. */
  function Join(parts: seq<string>, c: char): string {
    if parts == [] then []
    else if |parts| == 1 then parts[0]
    else parts[0] + [c] + Join(parts[1..], c)
  }

  /** A string without the separator is a single piece. */
  lemma {:induction false} SplitNone(s: string, c: char)
    requires c !in s
    ensures Split(s, c) == [s]
  {
    if s != [] {
      assert c !in s[1..];
      SplitNone(s[1..], c);
      assert [s[0]] + s[1..] == s;
    }
  }

  /** The text before the first separator is the first piece; the rest is
      split on its own. */
  lemma {:induction false} SplitFirst(a: string, c: char, b: string)
    requires c !in a
    ensures Split(a + [c] + b, c) == [a] + Split(b, c)
  {
    if a != [] {
      assert c !in a[1..] && a[0] != c;
      SplitFirst(a[1..], c, b);
      assert (a + [c] + b)[1..] == a[1..] + [c] + b;
      assert [a[0]] + a[1..] == a;
    } else {
      assert (a + [c] + b)[1..] == b;
    }
  }

  /** Splitting undoes joining pieces that hold no separator, and joining
      the pieces of a split gives back the string, whose pieces never hold
      the separator. */
  lemma {:induction false} SplitJoin(parts: seq<string>, c: char)
    requires |parts| >= 1 && forall i :: 0 <= i < |parts| ==> c !in parts[i]
    ensures Split(Join(parts, c), c) == parts
  {
    if |parts| == 1 {
      SplitNone(parts[0], c);
    } else {
      SplitJoin(parts[1..], c);
      SplitFirst(parts[0], c, Join(parts[1..], c));
      assert [parts[0]] + parts[1..] == parts;
    }
  }

  lemma {:induction false} JoinSplit(s: string, c: char)
    ensures Join(Split(s, c), c) == s
    ensures forall i :: 0 <= i < |Split(s, c)| ==> c !in Split(s, c)[i]
  {
    if s != [] {
      JoinSplit(s[1..], c);
      var rest := Split(s[1..], c);
      if s[0] == c {
        assert ([[]] + rest)[1..] == rest;
      } else {
        var r := [[s[0]] + rest[0]] + rest[1..];
        assert r[1..] == rest[1..];
        if |rest| == 1 {
          assert Join(rest, c) == rest[0];
        } else {
          assert Join(rest, c) == rest[0] + [c] + Join(rest[1..], c);
        }
        assert [s[0]] + s[1..] == s;
        forall i | 0 <= i < |r|
          ensures c !in r[i]
        {
          if i == 0 {
            assert forall j :: 0 <= j < |rest[0]| ==> r[0][j + 1] == rest[0][j];
          } else {
            assert r[i] == rest[i];
          }
        }
      }
    }
  }

  // ---------------------------------------------------------------------
  // int() and str() on integers

  predicate IsDigit(ch: char) { '0' <= ch <= '9' }

  predicate AllDigits(s: string) { forall i :: 0 <= i < |s| ==> IsDigit(s[i]) }

  /** The value of a string of decimal digits. */
  function DigitsValue(s: string): nat
    requires AllDigits(s)
  {
    if s == [] then 0
    else DigitsValue(s[..|s| - 1]) * 10 + (s[|s| - 1] as int - '0' as int)
  }

  /** `int(s)` on a string: an optional sign followed by at least one
      decimal digit; anything else raises ValueError. */
  function ParseInt(s: string): (r: Result<int>)
    ensures r.Err? ==> r.error == ValueError
  {
    var negative := |s| > 0 && s[0] == '-';
    var body := if |s| > 0 && (s[0] == '-' || s[0] == '+') then s[1..] else s;
    if body == [] || !AllDigits(body) then Err(ValueError)
    else
      var v: int := DigitsValue(body);
      Ok(if negative then -v else v)
  }

  /** The decimal digits of a natural number, without leading zeros. */
  function Digits(n: nat): string
  {
    if n < 10 then [('0' as int + n) as char]
    else Digits(n / 10) + [('0' as int + n % 10) as char]
  }

  /** `str(n)`: a minus sign for a negative number, then its digits. */
  function Str(n: int): string {
    if n < 0 then "-" + Digits(-n) else Digits(n)
  }

  /** The digits of a number are digits, at least one, and read back as
      the number. */
  lemma {:induction false} DigitsValueOf(n: nat)
    ensures Digits(n) != [] && AllDigits(Digits(n))
    ensures DigitsValue(Digits(n)) == n
  {
    if n >= 10 {
      DigitsValueOf(n / 10);
      var d := Digits(n);
      assert d[..|d| - 1] == Digits(n / 10);
    }
  }

  /** `int(str(n)) == n`, and the text of a number holds no `.` and no `/`. */
  lemma ParseIntStr(n: int)
    ensures ParseInt(Str(n)) == Ok(n)
    ensures '.' !in Str(n) && '/' !in Str(n)
  {
    var m := if n < 0 then -n else n;
    DigitsValueOf(m);
    if n < 0 {
      assert Str(n)[1..] == Digits(m);
    }
    assert forall i :: 0 <= i < |Str(n)| ==> Str(n)[i] == '-' || IsDigit(Str(n)[i]);
  }

  // ---------------------------------------------------------------------
  // parse_url

  /** `parse_url(url)`: the text from the first `teams/` on (or only the
      last character when there is none) must split on `/` into exactly
      three pieces, else ValueError; the team is the middle piece and the
      year is the integer before the first `.` of the last one. */
  function ParseUrl(url: string): Result<(string, int)> {
    var tail := SliceFrom(url, Find(url, Marker));
    var parts := Split(tail, '/');
    if |parts| != 3 then Err(ValueError)
    else
      match ParseInt(Split(parts[2], '.')[0])
      case Err(e) => Err(e)
      case Ok(year) => Ok((parts[1], year))
  }

  /** A link without `teams/` leaves at most one character to split, which
      never gives three pieces. */
  lemma ParseUrlNoMarker(url: string)
    requires forall i :: !Occurs(url, Marker, i)
    ensures ParseUrl(url) == Err(ValueError)
  {
    FindMeaning(url, Marker);
    var tail := SliceFrom(url, Find(url, Marker));
    assert |tail| <= 1;
    assert Split([], '/') == [[]];
    if tail != [] {
      assert tail[1..] == [];
    }
  }

  lemma Assoc<T>(a: seq<T>, b: seq<T>, c: seq<T>)
    ensures a + b + c == a + (b + c)
  {
  }

  /** The pieces of `teams/<team>/<last>` when neither holds a `/`. */
  lemma SplitTail(team: string, last: string)
    requires '/' !in team && '/' !in last
    ensures Split(Marker + (team + "/" + last), '/') == ["teams", team, last]
  {
    SplitNone(last, '/');
    SplitFirst(team, '/', last);
    SplitFirst("teams", '/', team + "/" + last);
    assert Marker + (team + "/" + last) == "teams" + ['/'] + (team + ['/'] + last);
  }

  /** The text before the first `.` of a year followed by a suffix that
      starts with `.` (or is empty) is the year. */
  lemma YearField(year: int, ext: string)
    requires ext == [] || ext[0] == '.'
    ensures Split(Str(year) + ext, '.')[0] == Str(year)
  {
    ParseIntStr(year);
    if ext == [] {
      SplitNone(Str(year), '.');
      assert Str(year) + ext == Str(year);
    } else {
      SplitFirst(Str(year), '.', ext[1..]);
      assert Str(year) + ext == Str(year) + ['.'] + ext[1..];
    }
  }

  /** The text `parse_url` keeps from such a link starts at its first
      `teams/`. */
  lemma TailOf(prefix: string, team: string, last: string)
    requires Find(prefix + Marker, Marker) == |prefix|
    ensures var url := prefix + Marker + team + "/" + last;
      SliceFrom(url, Find(url, Marker)) == Marker + (team + "/" + last)
  {
    var p, rest := prefix + Marker, team + "/" + last;
    var url := prefix + Marker + team + "/" + last;
    Assoc(p, team, "/");
    Assoc(p, team + "/", last);
    assert url == p + rest;
    FindExtend(p, Marker, rest);
    Assoc(prefix, Marker, rest);
    assert (prefix + (Marker + rest))[|prefix|..] == Marker + rest;
  }

  /** A link whose first `teams/` is followed by a team code without `/`,
      a `/`, a year and a suffix that starts with `.` (or is empty) reads
      back as that team and that year. */
  lemma ParseUrlRoundTrip(prefix: string, team: string, year: int, ext: string)
    requires Find(prefix + Marker, Marker) == |prefix|
    requires '/' !in team && '/' !in ext && (ext == [] || ext[0] == '.')
    ensures ParseUrl(prefix + Marker + team + "/" + Str(year) + ext) == Ok((team, year))
  {
    var last := Str(year) + ext;
    Assoc(prefix + Marker + team + "/", Str(year), ext);
    TailOf(prefix, team, last);
    ParseIntStr(year);
    assert '/' !in last;
    SplitTail(team, last);
    YearField(year, ext);
  }

  lemma OccursChars(s: string, pat: string, i: int)
    requires |pat| == 6
    ensures Occurs(s, pat, i) ==> s[i] == pat[0] && s[i + 1] == pat[1] && s[i + 5] == pat[5]
  {
    if Occurs(s, pat, i) {
      assert s[i..i + 6][1] == s[i + 1];
      assert s[i..i + 6][5] == s[i + 5];
    }
  }

  /** The first `teams/` of a link on the site is the one after the domain. */
  lemma MarkerAfterDomain()
    ensures Find(Domain + "/" + Marker, Marker) == |Domain + "/"|
  {
    var s := Domain + "/" + Marker;
    forall i | 0 <= i < |Domain + "/"|
      ensures !Occurs(s, Marker, i)
    {
      OccursChars(s, Marker, i);
    }
    FindIs(s, Marker, |Domain + "/"|);
  }

  /** The two links of the unit tests. */
  lemma ParseUrlExamples()
    ensures ParseUrl("http://www.basketball-reference.com/teams/CLE/2016.html") == Ok(("CLE", 2016))
    ensures ParseUrl("http://www.basketball-reference.com/teams/GSW/2015.html") == Ok(("GSW", 2015))
  {
    MarkerAfterDomain();
    ParseUrlRoundTrip(Domain + "/", "CLE", 2016, ".html");
    ParseUrlRoundTrip(Domain + "/", "GSW", 2015, ".html");
    StrYears();
    TestLinks();
  }

  lemma TestLinks()
    ensures "http://www.basketball-reference.com/teams/CLE/2016.html" == Domain + "/" + Marker + "CLE" + "/" + "2016" + ".html"
    ensures "http://www.basketball-reference.com/teams/GSW/2015.html" == Domain + "/" + Marker + "GSW" + "/" + "2015" + ".html"
  {
  }

  /** The years of the unit tests as text. */
  lemma StrYears()
    ensures Str(2015) == "2015" && Str(2016) == "2016"
  {
    assert Digits(20) == "20";
    assert Digits(201) == "201";
  }

  // ---------------------------------------------------------------------
  // fetch_schedule's URL

  /** `str.upper` on ASCII letters. */
  function UpperChar(ch: char): char {
    if 'a' <= ch <= 'z' then (ch as int - 32) as char else ch
  }

  function Upper(s: string): (r: string)
    ensures |r| == |s| && forall i :: 0 <= i < |s| ==> r[i] == UpperChar(s[i])
  {
    seq(|s|, i requires 0 <= i < |s| => UpperChar(s[i]))
  }

  /** The URL `fetch_schedule(year, team)` requests. */
  function FetchUrl(team: string, year: int): string {
    Join([Domain, "teams", Upper(team), Str(year) + "_games.html"], '/')
  }

  /** Four pieces joined: the separator between each two. */
  lemma JoinFour(a: string, b: string, c: string, d: string, sep: char)
    ensures Join([a, b, c, d], sep) == (a + [sep] + b + [sep]) + c + ([sep] + d)
  {
    assert [a, b, c, d][1..] == [b, c, d];
    assert [b, c, d][1..] == [c, d];
    assert [c, d][1..] == [d];
    var s := [sep];
    assert Join([c, d], sep) == c + s + d;
    assert Join([b, c, d], sep) == b + s + (c + s + d);
    assert Join([a, b, c, d], sep) == a + s + (b + s + (c + s + d));
    Assoc(c, s, d);
    Assoc(b + s, c, s + d);
    Assoc(a + s, b + s + c, s + d);
    Assoc(a + s, b + s, c);
    Assoc(a + s, b, s);
  }

  /** The URL is the domain and `/teams/`, the upper-cased team code, and
      `/`, the year and `_games.html`. */
  lemma FetchUrlShape(team: string, year: int)
    ensures FetchUrl(team, year) == (Domain + "/teams/") + Upper(team) + ("/" + Str(year) + "_games.html")
  {
    JoinFour(Domain, "teams", Upper(team), Str(year) + "_games.html", '/');
    DomainTeams();
    Assoc("/", Str(year), "_games.html");
  }

  lemma DomainTeams()
    ensures Domain + ['/'] + "teams" + ['/'] == Domain + "/teams/"
  {
  }

  /** The text between a fixed head and a fixed tail. */
  lemma Middle(p: string, u: string, v: string, q: string)
    requires p + u + q == p + v + q
    ensures u == v
  {
    assert |u| == |v|;
    assert u == (p + u + q)[|p|..|p| + |u|];
    assert v == (p + v + q)[|p|..|p| + |v|];
  }

  /** Two team codes give the same URL for a year exactly when they agree
      once upper-cased: the code's case does not matter. */
  lemma FetchUrlIgnoresCase(a: string, b: string, year: int)
    ensures FetchUrl(a, year) == FetchUrl(b, year) <==> Upper(a) == Upper(b)
  {
    FetchUrlShape(a, year);
    FetchUrlShape(b, year);
    if FetchUrl(a, year) == FetchUrl(b, year) {
      Middle(Domain + "/teams/", Upper(a), Upper(b), "/" + Str(year) + "_games.html");
    }
  }

  /** The URL of the unit test, for a code in either case. */
  lemma FetchUrlExample()
    ensures FetchUrl("CLE", 2016) == "http://www.basketball-reference.com/teams/CLE/2016_games.html"
    ensures FetchUrl("cle", 2016) == FetchUrl("CLE", 2016)
  {
    FetchUrlShape("CLE", 2016);
    assert Upper("CLE") == "CLE";
    assert Upper("cle") == "CLE";
    StrYears();
    TestFetchUrl();
    FetchUrlIgnoresCase("cle", "CLE", 2016);
  }

  lemma TestFetchUrl()
    ensures Domain + "/teams/" + "CLE" + "/" + "2016" + "_games.html" ==
      "http://www.basketball-reference.com/teams/CLE/2016_games.html"
  {
  }
}
