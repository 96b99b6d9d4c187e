/** The `GET /matches/:date` handler of server.js, with the upstream fan-out
    taken out: the handler receives, for every configured league in order,
    the league's display name and what its odds feed returned, and it
    answers with the matches of the requested date that have a full
    home/draw/away price triple.

    The handler is written the way the source runs it (loops over leagues,
    games, bookmakers and outcomes, mutable price slots, a `break` once a
    bookmaker's head-to-head market has been read), and each method is
    proved equal to a specification function; the properties of the handler
    are lemmas about those functions. */
module Server {
  import opened Options
  import opened Text

  const InvalidDateError := "Invalid date format. Use YYYY-MM-DD."
  const FetchFailedError := "Failed to fetch match data"

  /** What an outcome's `price` field holds: a JSON number, JSON `null`, or
      nothing at all (the field is missing, so JavaScript reads `undefined`).
      Prices are only copied and compared with `null`, never computed with. */
  datatype Price = Null | Undefined | Decimal(value: real)

  datatype Outcome = Outcome(name: string, price: Price)

  /** A bookmaker market; `outcomes` is None when the field is missing. */
  datatype Market = Market(key: string, outcomes: Option<seq<Outcome>>)

  /** A bookmaker; a missing `markets` field reads as the empty list. */
  datatype Bookmaker = Bookmaker(key: string, markets: seq<Market>)

  /** One upstream game record; `commenceTime` is None when the field is
      missing, and a missing `bookmakers` field reads as the empty list. */
  datatype Game = Game(commenceTime: Option<string>, homeTeam: string, awayTeam: string, bookmakers: seq<Bookmaker>)

  /** What one league's fetch produced once its body was parsed:
      - Rejected: the fetch or the JSON parse failed;
      - Falsy: a falsy JSON value such as `null`;
      - Games: a JSON array of game records;
      - NotAList: any other truthy value (an error object, say), which has no
        `forEach`. */
  datatype Feed = Rejected | Falsy | Games(games: seq<Game>) | NotAList

  /** `{ league: league.name, data }`, one per configured league. */
  datatype LeagueData = LeagueData(league: string, data: Feed)

  datatype Odds = Odds(home: Price, draw: Price, away: Price)

  datatype Match = Match(home: string, away: string, utcDate: string, odds: Odds)

  datatype LeagueMatches = LeagueMatches(name: string, matches: seq<Match>)

  /** The response: status 200 with `{date, leagues}`, or an error body. */
  datatype Response =
    | Ok(date: string, leagues: seq<LeagueMatches>)
    | BadRequest(error: string)
    | ServerError(error: string)
  {
    function Status(): int {
      match this
      case Ok(_, _) => 200
      case BadRequest(_) => 400
      case ServerError(_) => 500
    }
  }

  /** Which price slot an outcome fills. */
  datatype Side = HomeSide | DrawSide | AwaySide | NoSide

  /** The outcome classification: an exact match on the home team wins, then
      an exact match on the away team, then the name "draw" in any case. */
  function Classify(name: string, homeTeam: string, awayTeam: string): Side {
    if name == homeTeam then HomeSide
    else if name == awayTeam then AwaySide
    else if Lower(name) == "draw" then DrawSide
    else NoSide
  }

  /** `m` is the market at index `i`, and no market before it is a
      head-to-head market. */
  predicate FirstH2hAt(markets: seq<Market>, i: nat, m: Market) {
    i < |markets| && markets[i] == m && forall j :: 0 <= j < i ==> markets[j].key != "h2h"
  }

  /** `markets.find(m => m.key === "h2h")`: the first head-to-head market. */
  function FindH2h(markets: seq<Market>): (r: Option<Market>)
    ensures r.None? <==> forall i :: 0 <= i < |markets| ==> markets[i].key != "h2h"
    ensures r.Some? ==> r.value.key == "h2h"
  {
    if markets == [] then None
    else if markets[0].key == "h2h" then Some(markets[0])
    else
      var r := FindH2h(markets[1..]);
      assert forall i :: 1 <= i < |markets| ==> markets[1..][i - 1] == markets[i];
      r
  }

  /** The market `find` returns is the first head-to-head market in list
      order. */
  lemma {:induction false} FindH2hIsFirst(markets: seq<Market>)
    ensures FindH2h(markets).Some? ==> exists i: nat :: FirstH2hAt(markets, i, FindH2h(markets).value)
  {
    if markets != [] && markets[0].key != "h2h" && FindH2h(markets).Some? {
      FindH2hIsFirst(markets[1..]);
      assert FindH2h(markets) == FindH2h(markets[1..]);
      var i: nat :| FirstH2hAt(markets[1..], i, FindH2h(markets).value);
      assert FirstH2hAt(markets, i + 1, FindH2h(markets).value);
    } else if markets != [] && markets[0].key == "h2h" {
      assert FirstH2hAt(markets, 0, FindH2h(markets).value);
    }
  }

  /** The outcomes of a bookmaker's first head-to-head market, when that
      market has an `outcomes` field (an empty list counts). */
  function H2hOutcomes(b: Bookmaker): Option<seq<Outcome>> {
    match FindH2h(b.markets)
    case None => None
    case Some(m) => m.outcomes
  }

  /** The outcomes the handler reads: those of the first bookmaker, in list
      order, for which H2hOutcomes is present. */
  function ChosenOutcomes(bookmakers: seq<Bookmaker>): Option<seq<Outcome>> {
    if bookmakers == [] then None
    else if H2hOutcomes(bookmakers[0]).Some? then H2hOutcomes(bookmakers[0])
    else ChosenOutcomes(bookmakers[1..])
  }

  /** The price of the last outcome in `outs` that fills `side`, if any. */
  function LastPrice(outs: seq<Outcome>, side: Side, homeTeam: string, awayTeam: string): (r: Option<Price>)
    ensures r.None? <==> forall i :: 0 <= i < |outs| ==> Classify(outs[i].name, homeTeam, awayTeam) != side
  {
    if outs == [] then None
    else
      var last := outs[|outs| - 1];
      if Classify(last.name, homeTeam, awayTeam) == side then Some(last.price)
      else
        var r := LastPrice(outs[..|outs| - 1], side, homeTeam, awayTeam);
        assert forall i :: 0 <= i < |outs| - 1 ==> outs[..|outs| - 1][i] == outs[i];
        r
  }

  /** The value a price slot holds after the outcomes have been read in
      order: `null` to begin with, overwritten by every outcome of its side. */
  function Slot(outs: seq<Outcome>, side: Side, homeTeam: string, awayTeam: string): Price {
    match LastPrice(outs, side, homeTeam, awayTeam)
    case None => Null
    case Some(p) => p
  }

  /** The price triple the handler extracts for a game. */
  function OddsOf(g: Game): Odds {
    match ChosenOutcomes(g.bookmakers)
    case None => Odds(Null, Null, Null)
    case Some(outs) =>
      Odds(Slot(outs, HomeSide, g.homeTeam, g.awayTeam),
           Slot(outs, DrawSide, g.homeTeam, g.awayTeam),
           Slot(outs, AwaySide, g.homeTeam, g.awayTeam))
  }

  /** None of the three slots is `null`. */
  predicate Complete(o: Odds) {
    o.home != Null && o.draw != Null && o.away != Null
  }

  /** `game.commence_time` is present and not the empty string, and its
      first ten characters are `date`. */
  predicate OnDate(g: Game, date: string) {
    g.commenceTime.Some? && g.commenceTime.value != "" && Prefix(g.commenceTime.value, 10) == date
  }

  /** The entry the handler pushes for a game, if it pushes one. */
  function Listed(date: string, g: Game): Option<Match> {
    if OnDate(g, date) && Complete(OddsOf(g)) then
      Some(Match(g.homeTeam, g.awayTeam, g.commenceTime.value, OddsOf(g)))
    else None
  }

  /** The pushed entry as a list of zero or one matches. */
  function Entries(entry: Option<Match>): seq<Match> {
    match entry
    case None => []
    case Some(m) => [m]
  }

  /** The matches the handler lists for one league's games, in game order. */
  function KeptMatches(date: string, games: seq<Game>): (r: seq<Match>)
    ensures |r| <= |games|
  {
    if games == [] then []
    else Entries(Listed(date, games[0])) + KeptMatches(date, games[1..])
  }

  /** The games are read in order: the matches listed for two runs of games
      one after the other are those listed for the first run followed by
      those listed for the second. */
  lemma {:induction false} KeptMatchesAppend(date: string, a: seq<Game>, b: seq<Game>)
    ensures KeptMatches(date, a + b) == KeptMatches(date, a) + KeptMatches(date, b)
  {
    if a != [] {
      assert (a + b)[0] == a[0] && (a + b)[1..] == a[1..] + b;
      KeptMatchesAppend(date, a[1..], b);
    } else {
      assert a + b == b;
    }
  }

  /** One more game read: what it lists is added at the end. */
  lemma KeptMatchesStep(date: string, games: seq<Game>, k: nat)
    requires k < |games|
    ensures KeptMatches(date, games[..k + 1]) == KeptMatches(date, games[..k]) + Entries(Listed(date, games[k]))
  {
    assert games[..k + 1] == games[..k] + [games[k]];
    KeptMatchesAppend(date, games[..k], [games[k]]);
    assert KeptMatches(date, [games[k]]) == Entries(Listed(date, games[k])) + KeptMatches(date, []);
  }

  /** A feed that makes the whole request fail with status 500. */
  predicate Fails(f: Feed) {
    f.Rejected? || f.NotAList?
  }

  /** `leagues` put in front of an assembled list; a failure stays one. */
  function Prepend(leagues: seq<LeagueMatches>, rest: Option<seq<LeagueMatches>>): Option<seq<LeagueMatches>> {
    match rest
    case None => None
    case Some(ls) => Some(leagues + ls)
  }

  lemma PrependTwice(a: seq<LeagueMatches>, b: seq<LeagueMatches>, rest: Option<seq<LeagueMatches>>)
    ensures Prepend(a, Prepend(b, rest)) == Prepend(a + b, rest)
  {
    if rest.Some? {
      assert a + (b + rest.value) == (a + b) + rest.value;
    }
  }

  /** The league list of the response, or None when some league's data is
      truthy but not a list (its `forEach` throws, and the request fails). */
  function Assemble(date: string, results: seq<LeagueData>): (r: Option<seq<LeagueMatches>>)
    ensures r.None? <==> exists i :: 0 <= i < |results| && results[i].data.NotAList?
    ensures r.Some? ==> |r.value| <= |results|
  {
    if results == [] then Some([])
    else
      var rest := Assemble(date, results[1..]);
      assert forall i :: 1 <= i < |results| ==> results[1..][i - 1] == results[i];
      match results[0].data
      case NotAList => None
      case Games(games) =>
        var ms := KeptMatches(date, games);
        Prepend(if ms != [] then [LeagueMatches(results[0].league, ms)] else [], rest)
      case _ => rest
  }

  /** The response of the handler. */
  function Handle(date: string, results: seq<LeagueData>): (r: Response)
    ensures r.BadRequest? <==> !IsIsoDate(date)
    ensures r.BadRequest? ==> r.error == InvalidDateError && r.Status() == 400
    ensures r.ServerError? <==> IsIsoDate(date) && exists i :: 0 <= i < |results| && Fails(results[i].data)
    ensures r.ServerError? ==> r.error == FetchFailedError && r.Status() == 500
    ensures r.Ok? ==> r.date == date && forall l :: l in r.leagues ==> ListedLeague(l, date)
  {
    if !IsIsoDate(date) then BadRequest(InvalidDateError)
    else if exists i :: 0 <= i < |results| && results[i].data.Rejected? then ServerError(FetchFailedError)
    else
      match Assemble(date, results)
      case None => ServerError(FetchFailedError)
      case Some(leagues) => AssembleSound(date, results); Ok(date, leagues)
  }

  /** A listed league: it has at least one match, and every match has all
      three prices and starts on `date`. */
  predicate ListedLeague(l: LeagueMatches, date: string) {
    && l.matches != []
    && forall m :: m in l.matches ==> Complete(m.odds) && Prefix(m.utcDate, 10) == date
  }

  /** Every listed match has all three prices, starts on the requested date,
      and is copied field for field from one of the league's games. */
  lemma {:induction false} KeptMatchesSound(date: string, games: seq<Game>)
    ensures forall m :: m in KeptMatches(date, games) ==>
      && Complete(m.odds) && Prefix(m.utcDate, 10) == date
      && exists g :: g in games && OnDate(g, date) && m == Match(g.homeTeam, g.awayTeam, g.commenceTime.value, OddsOf(g))
  {
    if games != [] {
      KeptMatchesSound(date, games[1..]);
      assert forall g :: g in games[1..] ==> g in games;
    }
  }

  /** Every league of an assembled response is a listed league. */
  lemma {:induction false} AssembleSound(date: string, results: seq<LeagueData>)
    ensures Assemble(date, results).Some? ==> forall l :: l in Assemble(date, results).value ==> ListedLeague(l, date)
  {
    if results != [] {
      AssembleSound(date, results[1..]);
      if results[0].data.Games? {
        KeptMatchesSound(date, results[0].data.games);
      }
    }
  }

  /** Conversely, when no feed fails, a league whose feed lists at least
      one match appears in the response, under its own name and with exactly the
      matches listed for its games. */
  lemma {:induction false} AssembleListsLeague(date: string, results: seq<LeagueData>, i: nat)
    requires i < |results| && results[i].data.Games?
    requires KeptMatches(date, results[i].data.games) != []
    requires forall k :: 0 <= k < |results| ==> !results[k].data.NotAList?
    ensures Assemble(date, results).Some?
    ensures LeagueMatches(results[i].league, KeptMatches(date, results[i].data.games)) in Assemble(date, results).value
  {
    var rest := Assemble(date, results[1..]);
    assert forall k :: 1 <= k < |results| ==> results[1..][k - 1] == results[k];
    if i > 0 {
      AssembleListsLeague(date, results[1..], i - 1);
    }
  }

  /** Odds come from the first bookmaker, in list order, whose first `h2h`
      market has outcomes; every bookmaker after it is ignored. */
  lemma {:induction false} FirstH2hBookmakerDecides(before: seq<Bookmaker>, b: Bookmaker, after: seq<Bookmaker>)
    requires forall x :: x in before ==> H2hOutcomes(x).None?
    requires H2hOutcomes(b).Some?
    ensures ChosenOutcomes(before + [b] + after) == H2hOutcomes(b)
  {
    if before == [] {
      assert (before + [b] + after)[0] == b;
    } else {
      assert (before + [b] + after)[0] == before[0];
      assert (before + [b] + after)[1..] == before[1..] + [b] + after;
      FirstH2hBookmakerDecides(before[1..], b, after);
    }
  }

  /** Within the chosen market a later outcome of the same side overwrites an
      earlier one: the slot holds the price of the last outcome of its side. */
  lemma {:induction false} LastOutcomeWins(outs: seq<Outcome>, k: nat, homeTeam: string, awayTeam: string)
    requires k < |outs|
    requires forall j :: k < j < |outs| ==>
      Classify(outs[j].name, homeTeam, awayTeam) != Classify(outs[k].name, homeTeam, awayTeam)
    ensures LastPrice(outs, Classify(outs[k].name, homeTeam, awayTeam), homeTeam, awayTeam) == Some(outs[k].price)
  {
    if k < |outs| - 1 {
      var init := outs[..|outs| - 1];
      assert forall j :: k < j < |init| ==> init[j] == outs[j];
      LastOutcomeWins(init, k, homeTeam, awayTeam);
    }
  }

  /** A game whose two team names are the same is never listed: every outcome
      that names the team fills the home slot, so the away slot stays null. */
  lemma SameTeamsNeverListed(date: string, g: Game)
    requires g.homeTeam == g.awayTeam
    ensures Listed(date, g).None?
  {
    match ChosenOutcomes(g.bookmakers)
    case None =>
    case Some(outs) =>
      assert forall i :: 0 <= i < |outs| ==> Classify(outs[i].name, g.homeTeam, g.awayTeam) != AwaySide;
  }

  /** Conversely, every game on the requested date whose three slots are all
      filled is listed. */
  lemma {:induction false} CompleteGameIsListed(date: string, games: seq<Game>, g: Game)
    requires g in games && OnDate(g, date) && Complete(OddsOf(g))
    ensures Match(g.homeTeam, g.awayTeam, g.commenceTime.value, OddsOf(g)) in KeptMatches(date, games)
  {
    if games[0] != g {
      CompleteGameIsListed(date, games[1..], g);
    }
  }

  /** For a well-formed date, a game is on that date exactly when its start
      time is present, at least ten characters long and begins with the
      date. */
  lemma OnDateMeansPrefix(g: Game, date: string)
    requires IsIsoDate(date)
    ensures OnDate(g, date) <==>
      g.commenceTime.Some? && |g.commenceTime.value| >= 10 && g.commenceTime.value[..10] == date
  {
  }

  /** Leagues are read in order: the league list for two runs of league data
      is the list for the first followed by the list for the second, and a
      non-list anywhere in either run fails the whole request. */
  lemma {:induction false} AssembleAppend(date: string, a: seq<LeagueData>, b: seq<LeagueData>)
    ensures Assemble(date, a + b) ==
      match Assemble(date, a)
      case None => None
      case Some(x) => Prepend(x, Assemble(date, b))
  {
    if a == [] {
      assert a + b == b;
      if Assemble(date, b).Some? {
        assert [] + Assemble(date, b).value == Assemble(date, b).value;
      }
    } else {
      assert (a + b)[0] == a[0] && (a + b)[1..] == a[1..] + b;
      AssembleAppend(date, a[1..], b);
      match a[0].data
      case Games(games) =>
        var head := if KeptMatches(date, games) != [] then [LeagueMatches(a[0].league, KeptMatches(date, games))] else [];
        if Assemble(date, a[1..]).Some? {
          PrependTwice(head, Assemble(date, a[1..]).value, Assemble(date, b));
        }
      case _ =>
    }
  }

  /** A price field that is missing altogether is not `null`, so it passes the
      completeness test: the match is listed with that slot undefined. */
  lemma MissingPriceIsListed()
    ensures var g := Game(Some("2025-09-13T15:00:00Z"), "A", "B",
      [Bookmaker("x", [Market("h2h", Some([Outcome("A", Decimal(2.0)), Outcome("Draw", Decimal(3.0)), Outcome("B", Undefined)]))])]);
      Listed("2025-09-13", g) == Some(Match("A", "B", "2025-09-13T15:00:00Z", Odds(Decimal(2.0), Decimal(3.0), Undefined)))
  {
    var outs := [Outcome("A", Decimal(2.0)), Outcome("Draw", Decimal(3.0)), Outcome("B", Undefined)];
    assert Prefix("2025-09-13T15:00:00Z", 10) == "2025-09-13";
    assert Lower("Draw") == "draw" by {
      LowerIsDraw("Draw");
    }
    assert outs[..2] == [Outcome("A", Decimal(2.0)), Outcome("Draw", Decimal(3.0))];
    assert outs[..1] == [Outcome("A", Decimal(2.0))];
    assert LastPrice(outs, AwaySide, "A", "B") == Some(Undefined);
    assert LastPrice(outs, DrawSide, "A", "B") == Some(Decimal(3.0));
    assert LastPrice(outs, HomeSide, "A", "B") == Some(Decimal(2.0));
  }

  /** Reading one more outcome changes only the slot of its side. */
  lemma SlotStep(outs: seq<Outcome>, j: nat, side: Side, homeTeam: string, awayTeam: string)
    requires j < |outs|
    ensures Slot(outs[..j + 1], side, homeTeam, awayTeam)
         == if Classify(outs[j].name, homeTeam, awayTeam) == side then outs[j].price else Slot(outs[..j], side, homeTeam, awayTeam)
  {
    assert outs[..j + 1][..j] == outs[..j];
  }

  /** The outcome callback of the handler, run over a market's outcomes
      with all three slots starting at `null`: an outcome named like the
      home team fills the home slot, else one named like the away team the
      away slot, else one whose lower case is "draw" the draw slot. */
  method ReadPrices(outcomes: seq<Outcome>, homeTeam: string, awayTeam: string) returns (homeOdd: Price, drawOdd: Price, awayOdd: Price)
    ensures homeOdd == Slot(outcomes, HomeSide, homeTeam, awayTeam)
    ensures drawOdd == Slot(outcomes, DrawSide, homeTeam, awayTeam)
    ensures awayOdd == Slot(outcomes, AwaySide, homeTeam, awayTeam)
  {
    homeOdd, drawOdd, awayOdd := Null, Null, Null;
    var j := 0;
    while j < |outcomes|
      invariant 0 <= j <= |outcomes|
      invariant homeOdd == Slot(outcomes[..j], HomeSide, homeTeam, awayTeam)
      invariant drawOdd == Slot(outcomes[..j], DrawSide, homeTeam, awayTeam)
      invariant awayOdd == Slot(outcomes[..j], AwaySide, homeTeam, awayTeam)
    {
      var outcome := outcomes[j];
      SlotStep(outcomes, j, HomeSide, homeTeam, awayTeam);
      SlotStep(outcomes, j, DrawSide, homeTeam, awayTeam);
      SlotStep(outcomes, j, AwaySide, homeTeam, awayTeam);
      if outcome.name == homeTeam {
        homeOdd := outcome.price;
      } else if outcome.name == awayTeam {
        awayOdd := outcome.price;
      } else if Lower(outcome.name) == "draw" {
        drawOdd := outcome.price;
      }
      j := j + 1;
    }
    assert outcomes[..j] == outcomes;
  }

  /** The price extraction for one game, as the handler runs it: the first
      bookmaker whose first `h2h` market has outcomes is read and the loop
      breaks; the `pinnacle` test in the loop's condition never changes
      which bookmaker that is. */
  method ExtractOdds(game: Game) returns (odds: Odds)
    ensures odds == OddsOf(game)
  {
    var homeTeam, awayTeam := game.homeTeam, game.awayTeam;
    var homeOdd, drawOdd, awayOdd := Null, Null, Null;
    var bookmakers := game.bookmakers;
    if |bookmakers| > 0 {
      var oddsFound := false;
      var i := 0;
      while i < |bookmakers|
        invariant 0 <= i <= |bookmakers|
        invariant !oddsFound
        invariant homeOdd == Null && drawOdd == Null && awayOdd == Null
        invariant ChosenOutcomes(bookmakers) == ChosenOutcomes(bookmakers[i..])
      {
        var bookmaker := bookmakers[i];
        assert bookmakers[i..][0] == bookmaker && bookmakers[i..][1..] == bookmakers[i + 1..];
        if bookmaker.key == "pinnacle" || !oddsFound {
          var h2hMarket := FindH2h(bookmaker.markets);
          if h2hMarket.Some? && h2hMarket.value.outcomes.Some? {
            var outcomes := h2hMarket.value.outcomes.value;
            homeOdd, drawOdd, awayOdd := ReadPrices(outcomes, homeTeam, awayTeam);
            assert ChosenOutcomes(bookmakers) == Some(outcomes);
            oddsFound := true;
            break;
          }
        }
        i := i + 1;
      }
    }
    odds := Odds(homeOdd, drawOdd, awayOdd);
  }

  /** The body of the per-game callback: a game without a start time or on
      another date is skipped, and a game is pushed only when all three
      prices were found. */
  method ListGame(dateStr: string, game: Game) returns (entry: Option<Match>)
    ensures entry == Listed(dateStr, game)
  {
    entry := None;
    if game.commenceTime.Some? && game.commenceTime.value != "" {
      var gameDate := Prefix(game.commenceTime.value, 10);
      if gameDate == dateStr {
        var odds := ExtractOdds(game);
        if odds.home != Null && odds.away != Null && odds.draw != Null {
          entry := Some(Match(game.homeTeam, game.awayTeam, game.commenceTime.value, odds));
        }
      }
    }
  }

  /** The per-game loop of one league, pushing the listed games in order. */
  method MatchesFor(dateStr: string, games: seq<Game>) returns (matches: seq<Match>)
    ensures matches == KeptMatches(dateStr, games)
  {
    matches := [];
    var k := 0;
    while k < |games|
      invariant 0 <= k <= |games|
      invariant matches == KeptMatches(dateStr, games[..k])
    {
      var entry := ListGame(dateStr, games[k]);
      KeptMatchesStep(dateStr, games, k);
      if entry.Some? {
        matches := matches + [entry.value];
      } else {
        assert matches + Entries(entry) == matches;
      }
      k := k + 1;
    }
    assert games[..k] == games;
  }

  /** The handler: the date check, then (once every fetch has settled) the
      league loop; a league enters the response only with at least one
      match, and a league whose data has no `forEach` ends the request with
      the 500 error before anything is sent. */
  method HandleMatches(dateStr: string, results: seq<LeagueData>) returns (resp: Response)
    ensures resp == Handle(dateStr, results)
  {
    if !IsIsoDate(dateStr) {
      return BadRequest(InvalidDateError);
    }
    if exists i :: 0 <= i < |results| && results[i].data.Rejected? {
      return ServerError(FetchFailedError);
    }
    var leagues: seq<LeagueMatches> := [];
    var k := 0;
    assert results[k..] == results;
    assert Prepend([], Assemble(dateStr, results)) == Assemble(dateStr, results) by {
      if Assemble(dateStr, results).Some? {
        assert [] + Assemble(dateStr, results).value == Assemble(dateStr, results).value;
      }
    }
    while k < |results|
      invariant 0 <= k <= |results|
      invariant Assemble(dateStr, results) == Prepend(leagues, Assemble(dateStr, results[k..]))
    {
      var result := results[k];
      assert results[k..][0] == result && results[k..][1..] == results[k + 1..];
      ghost var rest := Assemble(dateStr, results[k + 1..]);
      assert result.data.Games? ==>
        Assemble(dateStr, results[k..]) == Prepend(if KeptMatches(dateStr, result.data.games) != []
          then [LeagueMatches(result.league, KeptMatches(dateStr, result.data.games))] else [], rest);
      assert leagues + [] == leagues;
      assert result.data.Falsy? || result.data.Rejected? ==> Assemble(dateStr, results[k..]) == rest;
      match result.data {
        case NotAList =>
          return ServerError(FetchFailedError);
        case Games(games) =>
          if |games| == 0 {
            PrependTwice(leagues, [], Assemble(dateStr, results[k + 1..]));
          }
          if |games| > 0 {
            var matches := MatchesFor(dateStr, games);
            if |matches| > 0 {
              PrependTwice(leagues, [LeagueMatches(result.league, matches)], Assemble(dateStr, results[k + 1..]));
              leagues := leagues + [LeagueMatches(result.league, matches)];
            } else {
              PrependTwice(leagues, [], Assemble(dateStr, results[k + 1..]));
            }
          }
        case _ =>
      }
      k := k + 1;
    }
    return Ok(dateStr, leagues);
  }
}
