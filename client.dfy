/** The pure helpers of the browser script: match identifiers, the Polish
    plural of "mecz", the date-input normaliser and the search filter with
    the visible-match count of the match table. */
module Client {
  import opened Text
  import opened Server

  /** `idOf(m)`: home team, away team and kick-off time joined by `|`. */
  function IdOf(m: Match): string {
    m.home + "|" + m.away + "|" + m.utcDate
  }

  /** In `a + "|" + r` with no `|` in `a`, the first `|` is at `|a|`. */
  lemma BarAt(a: string, r: string)
    requires '|' !in a
    ensures (a + "|" + r)[|a|] == '|'
    ensures forall j :: 0 <= j < |a| ==> (a + "|" + r)[j] != '|'
  {
  }

  /** Two strings joined by a `|` that the first does not contain can be
      split apart again. */
  lemma {:induction false} SplitAtBar(a1: string, r1: string, a2: string, r2: string)
    requires '|' !in a1 && '|' !in a2
    requires a1 + "|" + r1 == a2 + "|" + r2
    ensures a1 == a2 && r1 == r2
  {
    var s := a1 + "|" + r1;
    BarAt(a1, r1);
    BarAt(a2, r2);
    assert |a1| == |a2|;
    assert a1 == s[..|a1|];
    assert a2 == s[..|a2|];
    assert r1 == s[|a1| + 1..];
    assert r2 == s[|a2| + 1..];
  }

  /** As long as team names contain no `|`, different matches get different
      identifiers, so the one-selection-per-match rule of the bet slip is
      about matches and not about strings. */
  lemma IdOfInjective(m1: Match, m2: Match)
    requires '|' !in m1.home && '|' !in m1.away && '|' !in m2.home && '|' !in m2.away
    requires IdOf(m1) == IdOf(m2)
    ensures m1.home == m2.home && m1.away == m2.away && m1.utcDate == m2.utcDate
  {
    assert IdOf(m1) == m1.home + "|" + (m1.away + "|" + m1.utcDate);
    assert IdOf(m2) == m2.home + "|" + (m2.away + "|" + m2.utcDate);
    SplitAtBar(m1.home, m1.away + "|" + m1.utcDate, m2.home, m2.away + "|" + m2.utcDate);
    SplitAtBar(m1.away, m1.utcDate, m2.away, m2.utcDate);
  }

  /** Without that condition two different fixtures can share an identifier. */
  lemma IdOfCollides()
    ensures var o := Odds(Null, Null, Null);
      IdOf(Match("A|B", "C", "T", o)) == IdOf(Match("A", "B|C", "T", o))
  {
  }

  /** The quotient `a / b` truncated toward zero, as JavaScript's `%`
      uses it. */
  function TruncDiv(a: int, b: int): int
    requires b > 0
  {
    if a >= 0 then a / b else -((-a) / b)
  }

  /** JavaScript's `a % b` for a positive divisor: the dividend minus the
      divisor times the truncated quotient, so the remainder takes the sign
      of the dividend. */
  function JsRem(a: int, b: int): (r: int)
    requires b > 0
    ensures r == a - b * TruncDiv(a, b)
    ensures a >= 0 ==> 0 <= r < b
    ensures a <= 0 ==> -b < r <= 0
  {
    if a >= 0 then a % b else -((-a) % b)
  }

  /** `pluralMecz(n)`: the Polish form of "match" that goes with the count
      `n`. */
  function PluralMecz(n: int): string {
    if n == 1 then "mecz"
    else if 2 <= JsRem(n, 10) <= 4 && !(12 <= JsRem(n, 100) <= 14) then "mecze"
    else "meczów"
  }

  /** Which form a count gets: "mecz" for one, "mecze" for counts ending in
      2, 3 or 4 other than 12, 13 and 14 (as in the hundreds), "meczów" for
      every other count, including zero and every negative count. */
  lemma PluralMeczForms(n: int)
    ensures PluralMecz(n) == "mecz" <==> n == 1
    ensures PluralMecz(n) == "mecze" <==> n > 1 && 2 <= n % 10 <= 4 && !(12 <= n % 100 <= 14)
    ensures PluralMecz(n) == "meczów" <==> n != 1 && !(n > 1 && 2 <= n % 10 <= 4 && !(12 <= n % 100 <= 14))
  {
  }

  /** Past one, the form depends only on the last two digits. */
  lemma PluralMeczPeriodic(n: int)
    requires n >= 2
    ensures PluralMecz(n + 100) == PluralMecz(n)
  {
  }

  lemma PluralMeczExamples()
    ensures PluralMecz(0) == "meczów" && PluralMecz(1) == "mecz" && PluralMecz(2) == "mecze"
    ensures PluralMecz(5) == "meczów" && PluralMecz(12) == "meczów" && PluralMecz(22) == "mecze"
    ensures PluralMecz(112) == "meczów" && PluralMecz(-2) == "meczów"
  {
  }

  /** The clean-up before the date patterns are tried: white space removed
      (trimming and deleting every `\s` run, which for one and the same set of
      characters comes to deleting all of them), and every `.` and `/`
      turned into `-`. */
  function CleanDate(s: string): (r: string)
    ensures |r| <= |s|
    ensures forall i :: 0 <= i < |r| ==> !IsSpace(r[i]) && r[i] != '.' && r[i] != '/'
  {
    if s == [] then []
    else
      (if IsSpace(s[0]) then [] else [if s[0] == '.' || s[0] == '/' then '-' else s[0]])
      + CleanDate(s[1..])
  }

  /** A string with nothing to clean is left as it is. */
  lemma {:induction false} CleanDateKeepsClean(s: string)
    requires forall i :: 0 <= i < |s| ==> !IsSpace(s[i]) && s[i] != '.' && s[i] != '/'
    ensures CleanDate(s) == s
  {
    if s != [] {
      CleanDateKeepsClean(s[1..]);
      assert [s[0]] + s[1..] == s;
    }
  }

  /** `normalizeDateInput(raw)`, with the current UTC date passed in as
      `today` (`new Date().toISOString().slice(0, 10)`): an empty input gives
      today, an ISO date is kept, a day-first date is turned round, anything
      else gives today. */
  function NormalizeDateInput(raw: string, today: string): (r: string)
    ensures r == today || IsIsoDate(r)
  {
    if raw == [] then today
    else
      var s := CleanDate(raw);
      if IsIsoDate(s) then s
      else if IsDayFirstDate(s) then s[6..10] + "-" + s[3..5] + "-" + s[0..2]
      else today
  }

  /** A well-formed ISO date comes back unchanged. */
  lemma NormalizeKeepsIsoDate(raw: string, today: string)
    requires IsIsoDate(raw)
    ensures NormalizeDateInput(raw, today) == raw
  {
    CleanDateKeepsClean(raw);
  }

  /** A day-first date comes back as year, month and day. */
  lemma NormalizeReordersDayFirst(raw: string, today: string)
    requires IsDayFirstDate(raw)
    ensures NormalizeDateInput(raw, today) == raw[6..10] + "-" + raw[3..5] + "-" + raw[0..2]
    ensures IsIsoDate(NormalizeDateInput(raw, today))
  {
    CleanDateKeepsClean(raw);
  }

  /** The clean-up works character by character. */
  lemma {:induction false} CleanDateConcat(a: string, b: string)
    ensures CleanDate(a + b) == CleanDate(a) + CleanDate(b)
  {
    if a == [] {
      assert a + b == b;
    } else {
      assert (a + b)[0] == a[0];
      assert (a + b)[1..] == a[1..] + b;
      CleanDateConcat(a[1..], b);
    }
  }

  /** White space disappears. */
  lemma {:induction false} CleanDateDropsSpace(w: string)
    requires AllSpace(w)
    ensures CleanDate(w) == []
  {
    if w != [] {
      CleanDateDropsSpace(w[1..]);
    }
  }

  /** The separators a user may type between day, month and year. */
  predicate IsSeparator(c: char) {
    c == '.' || c == '/' || c == '-'
  }

  /** A run of ASCII digits. */
  predicate AllDigits(s: string) {
    forall i :: 0 <= i < |s| ==> IsDigit(s[i])
  }

  /** A separator is cleaned to a dash. */
  lemma CleanSeparator(c: char)
    requires IsSeparator(c)
    ensures CleanDate([c]) == "-"
  {
  }

  /** What the clean-up makes of digits, a separator, digits, a separator
      and digits. */
  lemma CleanDateOfGroups(x: string, sep1: char, y: string, sep2: char, z: string)
    requires AllDigits(x) && AllDigits(y) && AllDigits(z)
    requires IsSeparator(sep1) && IsSeparator(sep2)
    ensures CleanDate(x + [sep1] + y + [sep2] + z) == x + "-" + y + "-" + z
  {
    CleanDateKeepsClean(x);
    CleanDateKeepsClean(y);
    CleanDateKeepsClean(z);
    CleanSeparator(sep1);
    CleanSeparator(sep2);
    CleanDateConcat(x, [sep1]);
    CleanDateConcat(x + [sep1], y);
    CleanDateConcat(x + [sep1] + y, [sep2]);
    CleanDateConcat(x + [sep1] + y + [sep2], z);
  }

  /** White space around a piece of input makes no difference. */
  lemma CleanDateDropsPadding(w1: string, d: string, w2: string)
    requires AllSpace(w1) && AllSpace(w2)
    ensures CleanDate(w1 + d + w2) == CleanDate(d)
  {
    CleanDateDropsSpace(w1);
    CleanDateDropsSpace(w2);
    CleanDateConcat(w1, d);
    CleanDateConcat(w1 + d, w2);
    assert CleanDate(d) + [] == CleanDate(d);
  }

  /** What the clean-up makes of white space, digits, a separator, digits,
      a separator, digits and white space. */
  lemma CleanDateOfDate(w1: string, x: string, sep1: char, y: string, sep2: char, z: string, w2: string)
    requires AllSpace(w1) && AllSpace(w2) && AllDigits(x) && AllDigits(y) && AllDigits(z)
    requires IsSeparator(sep1) && IsSeparator(sep2)
    ensures CleanDate(w1 + x + [sep1] + y + [sep2] + z + w2) == x + "-" + y + "-" + z
  {
    var date := x + [sep1] + y + [sep2] + z;
    assert w1 + x + [sep1] + y + [sep2] + z + w2 == w1 + date + w2;
    CleanDateDropsPadding(w1, date, w2);
    CleanDateOfGroups(x, sep1, y, sep2, z);
  }

  /** A day-first date is recognised whatever separators it is typed with
      and whatever white space surrounds it, and comes back as year, month
      and day. */
  lemma NormalizeDayFirstTolerant(w1: string, dd: string, sep1: char, mm: string, sep2: char, yyyy: string, w2: string, today: string)
    requires AllSpace(w1) && AllSpace(w2) && AllDigits(dd) && AllDigits(mm) && AllDigits(yyyy)
    requires |dd| == 2 && |mm| == 2 && |yyyy| == 4
    requires IsSeparator(sep1) && IsSeparator(sep2)
    ensures NormalizeDateInput(w1 + dd + [sep1] + mm + [sep2] + yyyy + w2, today) == yyyy + "-" + mm + "-" + dd
  {
    var raw := w1 + dd + [sep1] + mm + [sep2] + yyyy + w2;
    var s := dd + "-" + mm + "-" + yyyy;
    CleanDateOfDate(w1, dd, sep1, mm, sep2, yyyy, w2);
    assert raw != [];
    assert s[4] == mm[1];
    assert !IsIsoDate(s);
    assert IsDayFirstDate(s);
    assert s[6..10] == yyyy && s[3..5] == mm && s[0..2] == dd;
  }

  /** The same for a year-first date, which is kept in that order. */
  lemma NormalizeIsoTolerant(w1: string, yyyy: string, sep1: char, mm: string, sep2: char, dd: string, w2: string, today: string)
    requires AllSpace(w1) && AllSpace(w2) && AllDigits(dd) && AllDigits(mm) && AllDigits(yyyy)
    requires |dd| == 2 && |mm| == 2 && |yyyy| == 4
    requires IsSeparator(sep1) && IsSeparator(sep2)
    ensures NormalizeDateInput(w1 + yyyy + [sep1] + mm + [sep2] + dd + w2, today) == yyyy + "-" + mm + "-" + dd
  {
    var raw := w1 + yyyy + [sep1] + mm + [sep2] + dd + w2;
    CleanDateOfDate(w1, yyyy, sep1, mm, sep2, dd, w2);
    assert raw != [];
    assert IsIsoDate(yyyy + "-" + mm + "-" + dd);
  }

  /** ... and what is empty, or neither kind of date once cleaned, falls
      back to today. */
  lemma NormalizeFallsBackToToday(raw: string, today: string)
    requires raw == [] || (!IsIsoDate(CleanDate(raw)) && !IsDayFirstDate(CleanDate(raw)))
    ensures NormalizeDateInput(raw, today) == today
  {
  }

  lemma NormalizeFallbackExample()
    ensures NormalizeDateInput("", "2000-01-01") == "2000-01-01"
    ensures NormalizeDateInput("tomorrow", "2000-01-01") == "2000-01-01"
  {
  }

  /** The number of ASCII digits in `s`. */
  function DigitCount(s: string): nat {
    if s == [] then 0 else (if IsDigit(s[0]) then 1 else 0) + DigitCount(s[1..])
  }

  lemma {:induction false} DigitCountConcat(a: string, b: string)
    ensures DigitCount(a + b) == DigitCount(a) + DigitCount(b)
  {
    if a == [] {
      assert a + b == b;
    } else {
      assert (a + b)[0] == a[0];
      assert (a + b)[1..] == a[1..] + b;
      DigitCountConcat(a[1..], b);
    }
  }

  lemma {:induction false} AllDigitsCount(s: string)
    requires AllDigits(s)
    ensures DigitCount(s) == |s|
  {
    if s != [] {
      AllDigitsCount(s[1..]);
    }
  }

  /** The clean-up neither adds nor removes a digit. */
  lemma {:induction false} CleanDateKeepsDigitCount(s: string)
    ensures DigitCount(CleanDate(s)) == DigitCount(s)
  {
    if s != [] {
      var head := if IsSpace(s[0]) then [] else [if s[0] == '.' || s[0] == '/' then '-' else s[0]];
      assert CleanDate(s) == head + CleanDate(s[1..]);
      DigitCountConcat(head, CleanDate(s[1..]));
      CleanDateKeepsDigitCount(s[1..]);
    }
  }

  /** A date in either format holds eight digits. */
  lemma DateHasEightDigits(s: string)
    requires IsIsoDate(s) || IsDayFirstDate(s)
    ensures DigitCount(s) >= 8
  {
    var i, j := if IsIsoDate(s) then 4 else 2, if IsIsoDate(s) then 7 else 5;
    assert s == s[..i] + s[i..i + 1] + s[i + 1..j] + s[j..j + 1] + s[j + 1..];
    DigitCountConcat(s[..i] + s[i..i + 1] + s[i + 1..j] + s[j..j + 1], s[j + 1..]);
    DigitCountConcat(s[..i] + s[i..i + 1] + s[i + 1..j], s[j..j + 1]);
    DigitCountConcat(s[..i] + s[i..i + 1], s[i + 1..j]);
    DigitCountConcat(s[..i], s[i..i + 1]);
    AllDigitsCount(s[..i]);
    AllDigitsCount(s[i + 1..j]);
    AllDigitsCount(s[j + 1..]);
  }

  /** Input with fewer than eight ASCII digits cannot name a date, and
      always gives today. */
  lemma NormalizeFewDigitsGivesToday(raw: string, today: string)
    requires DigitCount(raw) < 8
    ensures NormalizeDateInput(raw, today) == today
  {
    if raw != [] {
      CleanDateKeepsDigitCount(raw);
      if IsIsoDate(CleanDate(raw)) || IsDayFirstDate(CleanDate(raw)) {
        DateHasEightDigits(CleanDate(raw));
      }
    }
  }

  /** With a well-formed `today`, every input is turned into an ISO date, so
      the server's date check never rejects what the page asks for ... */
  lemma NormalizedDateAccepted(raw: string, today: string, results: seq<LeagueData>)
    requires IsIsoDate(today)
    ensures IsIsoDate(NormalizeDateInput(raw, today))
    ensures !Handle(NormalizeDateInput(raw, today), results).BadRequest?
  {
  }

  /** ... and normalising twice changes nothing. */
  lemma NormalizeIdempotent(raw: string, today: string)
    requires IsIsoDate(today)
    ensures NormalizeDateInput(NormalizeDateInput(raw, today), today) == NormalizeDateInput(raw, today)
  {
    NormalizeKeepsIsoDate(NormalizeDateInput(raw, today), today);
  }

  /** The search query: the search box's value lower-cased, then trimmed. */
  function Query(searchValue: string): string {
    Trim(Lower(searchValue))
  }

  /** The filter of one table row: an empty query lets every match through;
      otherwise the query must occur in the lower-cased league name, home
      team and away team joined by spaces. */
  predicate SearchHit(leagueName: string, m: Match, q: string) {
    q == [] || Includes(Lower(leagueName + " " + m.home + " " + m.away), q)
  }

  /** `league.matches.filter(...)`: the matches of one league that the
      query lets through, in their order. */
  function VisibleIn(leagueName: string, matches: seq<Match>, q: string): (r: seq<Match>)
    ensures |r| <= |matches|
    ensures forall m :: m in r <==> m in matches && SearchHit(leagueName, m, q)
  {
    if matches == [] then []
    else
      var head := if SearchHit(leagueName, matches[0], q) then [matches[0]] else [];
      head + VisibleIn(leagueName, matches[1..], q)
  }

  /** The empty query shows every match of a league. */
  lemma {:induction false} EmptyQueryShowsAll(leagueName: string, matches: seq<Match>)
    ensures VisibleIn(leagueName, matches, []) == matches
  {
    if matches != [] {
      EmptyQueryShowsAll(leagueName, matches[1..]);
      assert [matches[0]] + matches[1..] == matches;
    }
  }

  /** A needle that occurs in the middle piece of a string occurs in the
      whole string. */
  lemma IncludesMiddle(a: string, b: string, c: string, q: string)
    requires Includes(b, q)
    ensures Includes(a + b + c, q)
  {
    var i :| 0 <= i <= |b| && OccursAt(b, q, i);
    assert (a + b + c)[|a| + i..|a| + i + |q|] == b[i..i + |q|];
    assert OccursAt(a + b + c, q, |a| + i);
  }

  /** A string includes what `trim` keeps of it. */
  lemma IncludesTrim(s: string)
    ensures Includes(s, Trim(s))
  {
    TrimKeepsInfix(s);
  }

  /** The search text of a row, lower-cased, in three pieces: the league
      name with its space, the home team, and the away team with its
      space. */
  lemma LowerOfRow(leagueName: string, m: Match)
    ensures Lower(leagueName + " " + m.home + " " + m.away)
         == Lower(leagueName + " ") + Lower(m.home) + Lower(" " + m.away)
  {
    var a, b, c := leagueName + " ", m.home, " " + m.away;
    assert leagueName + " " + m.home + " " + m.away == (a + b) + c;
    LowerConcat(a, b);
    LowerConcat(a + b, c);
  }

  /** Typing the home team's name, in any mix of upper and lower case,
      keeps that match in the table. */
  lemma SearchFindsHomeTeam(m: Match, leagueName: string, typed: string)
    requires Lower(typed) == Lower(m.home)
    ensures SearchHit(leagueName, m, Query(typed))
  {
    LowerOfRow(leagueName, m);
    IncludesTrim(Lower(m.home));
    IncludesMiddle(Lower(leagueName + " "), Lower(m.home), Lower(" " + m.away), Query(typed));
  }

  /** The number of rows `renderMatches` draws: the visible matches of
      every league whose chip is on. */
  function CountVisible(leagues: seq<LeagueMatches>, active: set<string>, q: string): nat {
    if leagues == [] then 0
    else
      (if leagues[0].name in active then |VisibleIn(leagues[0].name, leagues[0].matches, q)| else 0)
      + CountVisible(leagues[1..], active, q)
  }

  /** All the matches of all the leagues. */
  function TotalMatches(leagues: seq<LeagueMatches>): nat {
    if leagues == [] then 0 else |leagues[0].matches| + TotalMatches(leagues[1..])
  }

  /** Never more rows than matches; with no league switched on, none. */
  lemma {:induction false} CountVisibleBounds(leagues: seq<LeagueMatches>, active: set<string>, q: string)
    ensures CountVisible(leagues, active, q) <= TotalMatches(leagues)
    ensures active == {} ==> CountVisible(leagues, active, q) == 0
  {
    if leagues != [] {
      CountVisibleBounds(leagues[1..], active, q);
    }
  }

  /** With every league switched on and an empty search box, every match is
      counted. */
  lemma {:induction false} CountVisibleAll(leagues: seq<LeagueMatches>, active: set<string>)
    requires forall l :: l in leagues ==> l.name in active
    ensures CountVisible(leagues, active, []) == TotalMatches(leagues)
  {
    if leagues != [] {
      EmptyQueryShowsAll(leagues[0].name, leagues[0].matches);
      assert leagues[0] in leagues;
      assert forall l :: l in leagues[1..] ==> l in leagues;
      CountVisibleAll(leagues[1..], active);
    }
  }
}
