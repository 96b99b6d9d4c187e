# MatchIQ odds board: a Dafny model

MatchIQ is a small web application. It shows football fixtures for one date,
with their home/draw/away decimal odds, and it lets the user collect picks on
a bet slip. This project models its two cores and proves properties of them.

- **Server** (`server.dfy`) models the `GET /matches/:date` handler of
  `server.js`. The date is checked against `YYYY-MM-DD` first; a bad date is
  answered with 400. Otherwise the handler reads each league's odds feed in
  order. It lists every game that:
  - starts on the requested date (by the first ten characters of
    `commence_time`), and
  - has all three prices in the first head-to-head market it reads.

  A league enters the response only when it has at least one match. A failed
  fetch, or a feed that is not a list, turns the whole answer into a 500.
  The handler keeps the source's own shape: loops, mutable price slots and a
  `break`. The methods `HandleMatches`, `MatchesFor`, `ListGame`,
  `ExtractOdds` and `ReadPrices` are each proved equal to a specification
  function, and the properties are lemmas about those functions.
- **Text** (`text.dfy`) holds the JavaScript string operations both sides
  use:
  - the two date regular expressions;
  - `slice`;
  - the `\s` class and `trim`;
  - lower-casing;
  - `includes`.
- **Client** (`client.dfy`) holds the pure helpers of `public/script.js`:
  - `idOf`;
  - `pluralMecz`;
  - `normalizeDateInput`, with today's date as a parameter;
  - the search filter and the visible-row count of `renderMatches`.
- **Slip** (`slip.dfy`) models the page `state` as the class `AppState`.
  Its methods change the slip, the league chips and the stored copy of the
  slip in place. Toggling a pick is specified by the function `Toggled`.
  The lemmas prove the slip's state machine:
  - at most one pick per match;
  - other matches are never touched;
  - pressing the same button twice restores the slip.

## Model

| member | source | states |
|---|---|---|
| `Text.Prefix` | server.js:46 | `slice(0, 10)`: at most ten characters and a prefix of the input; exactly ten when the input is long enough, and the whole input when it is not |
| `Text.TrimKeepsInfix` | public/script.js:96 | `trim` keeps one contiguous piece that neither starts nor ends with white space; everything it cuts off is white space |
| `Text.LowerIsDraw` | server.js:61 | `name.toLowerCase() === "draw"` holds exactly for the sixteen upper/lower-case spellings of "draw" |
| `Text.LowerConcat` | public/script.js:106 | lower-casing the joined search text is lower-casing each piece |
| `Server.FindH2h` | server.js:56 | `find` returns nothing exactly when no market has key `h2h`; whatever it returns has key `h2h` |
| `Server.FindH2hIsFirst` | server.js:56 | the market found is the first `h2h` market in list order |
| `Server.LastPrice` | server.js:58-62 | a side gets no price exactly when no outcome is classified to that side |
| `Server.LastOutcomeWins` | server.js:58-62 | a slot holds the price of the last outcome of its side; later outcomes overwrite earlier ones |
| `Server.SlotStep` | server.js:58-62 | reading one more outcome changes only the slot of that outcome's side |
| `Server.FirstH2hBookmakerDecides` | server.js:51-67 | the odds come from the first bookmaker whose first `h2h` market has outcomes; later bookmakers, `pinnacle` included, are ignored |
| `Server.ReadPrices` | server.js:58-62 | the outcome loop leaves in each slot exactly `Slot` of the outcome list: home name first, then away name, then "draw" in any case; `null` when no outcome matched |
| `Server.ExtractOdds` | server.js:50-68 | the bookmaker loop, with its `pinnacle`/`oddsFound` test and its `break`, yields exactly `OddsOf(game)` |
| `Server.ListGame` | server.js:45-80 | one game's callback yields exactly `Listed(date, game)` |
| `Server.KeptMatches` | server.js:43-81 | a league never yields more matches than it has games |
| `Server.KeptMatchesAppend` | server.js:44 | games are processed in order: matches for `a + b` are those for `a` followed by those for `b` |
| `Server.KeptMatchesStep` | server.js:44-81 | reading one more game appends what that game lists |
| `Server.MatchesFor` | server.js:43-81 | the per-game loop yields exactly `KeptMatches(date, games)`, in game order |
| `Server.KeptMatchesSound` | server.js:45-80 | every listed match has three non-null prices and starts on the date, and is copied field for field from one of the league's games |
| `Server.CompleteGameIsListed` | server.js:69-80 | conversely, every game on the date with three non-null prices is listed |
| `Server.SameTeamsNeverListed` | server.js:59-60 | a game whose home and away names are equal is never listed: the away slot can never be filled |
| `Server.MissingPriceIsListed` | server.js:69 | an outcome with no `price` field passes the `!== null` test, so its match is listed with that price undefined |
| `Server.OnDateMeansPrefix` | server.js:45-47 | for a well-formed date, a game is on that date exactly when its start time has at least ten characters and begins with the date |
| `Server.PrependTwice` | server.js:83 | pushing two runs of leagues one after the other is pushing their concatenation |
| `Server.Assemble` | server.js:39-88 | the league list fails exactly when some feed is truthy but not a list; otherwise it holds no more leagues than there are feeds |
| `Server.AssembleAppend` | server.js:39-88 | leagues are processed in order: the list for `a + b` is the list for `a` followed by the list for `b`, and a failure in either fails the whole |
| `Server.AssembleListsLeague` | server.js:82-87 | conversely, when no feed is a non-list, the response is assembled and every league whose games list at least one match appears in it, under its own name and with exactly those matches |
| `Server.AssembleSound` | server.js:82-87 | every league in the response has at least one match, and every match is complete and on the date |
| `Server.Handle` | server.js:23-95 | 400 with the date-format message exactly when the date is not `YYYY-MM-DD`; 500 with the fetch-failed message exactly when the date is valid and some feed was rejected or was not a list; otherwise 200 with the requested date and only listed leagues |
| `Server.HandleMatches` | server.js:23-95 | the handler as written (date check, league loop, early 500) answers exactly `Handle(date, results)` |
| `Client.IdOfInjective` | public/script.js:26 | when team names contain no `|`, equal match ids mean equal home team, away team and kick-off time |
| `Client.IdOfCollides` | public/script.js:26 | with a `|` in a team name, two different fixtures can get the same id |
| `Client.SplitAtBar` | public/script.js:26 | a string joined by `|` to a first part that contains no `|` splits back into the same two parts |
| `Client.JsRem` | public/script.js:29 | JavaScript `%`: the dividend minus the divisor times the quotient truncated toward zero, so it lies in `[0, b)` for a non-negative dividend and in `(-b, 0]` for a non-positive one |
| `Client.PluralMeczForms` | public/script.js:29 | "mecz" exactly for 1; "mecze" exactly for counts above 1 that end in 2 to 4 but not in 12 to 14; "meczów" for every other count, negatives included |
| `Client.PluralMeczPeriodic` | public/script.js:29 | for counts from 2 up, the word depends only on the count modulo 100 |
| `Client.PluralMeczExamples` | public/script.js:28-29 | 0, 1, 2, 5, 12, 22, 112 and -2 get the forms line 29 computes |
| `Client.CleanDate` | public/script.js:34 | the cleaned input is no longer than the input and holds no white space, `.` or `/` |
| `Client.CleanDateKeepsClean` | public/script.js:34 | input with nothing to clean is unchanged |
| `Client.CleanDateConcat` | public/script.js:34 | the clean-up works character by character |
| `Client.CleanDateDropsSpace` | public/script.js:34 | white space is removed entirely |
| `Client.CleanSeparator` | public/script.js:34 | `.`, `/` and `-` each clean to `-` |
| `Client.CleanDateOfGroups` | public/script.js:34 | digit groups joined by any of those separators clean to the groups joined by `-` |
| `Client.CleanDateDropsPadding` | public/script.js:34 | white space around the input makes no difference to the clean-up |
| `Client.CleanDateOfDate` | public/script.js:34 | digits separated by `.`, `/` or `-` and surrounded by white space clean to the digits joined by `-` |
| `Client.NormalizeDateInput` | public/script.js:32-42 | the result is either today's date or a `YYYY-MM-DD` string |
| `Client.NormalizeKeepsIsoDate` | public/script.js:36 | a `YYYY-MM-DD` input comes back unchanged |
| `Client.NormalizeReordersDayFirst` | public/script.js:38-39 | a `DD-MM-YYYY` input comes back as `YYYY-MM-DD` with the same digits |
| `Client.NormalizeDayFirstTolerant` | public/script.js:34-39 | a day-first date with any `.`, `/` or `-` separators and any white space around it normalises to year, month, day |
| `Client.NormalizeIsoTolerant` | public/script.js:34-36 | the same for a year-first date, which keeps its order |
| `Client.NormalizeFallsBackToToday` | public/script.js:32-42 | every input that is empty, or that is neither kind of date once cleaned, gives today |
| `Client.NormalizeFallbackExample` | public/script.js:33 | the inputs "" and "tomorrow" give today |
| `Client.DigitCountConcat` | public/script.js:34 | the digit count of joined strings is the sum of their digit counts |
| `Client.AllDigitsCount` | public/script.js:36 | a run of digits has as many digits as characters |
| `Client.CleanDateKeepsDigitCount` | public/script.js:34 | the clean-up neither adds nor removes a digit |
| `Client.DateHasEightDigits` | public/script.js:36-38 | a string in either date format holds eight digits |
| `Client.NormalizeFewDigitsGivesToday` | public/script.js:32-42 | any input with fewer than eight ASCII digits gives today |
| `Client.NormalizedDateAccepted` | public/script.js:32-42 | with a well-formed today, every normalised input passes the server's date check, so the page never gets the 400 answer |
| `Client.NormalizeIdempotent` | public/script.js:32-42 | normalising a normalised date changes nothing |
| `Client.VisibleIn` | public/script.js:104-108 | the filtered rows are exactly the league's matches that the query lets through, never more than the league has |
| `Client.EmptyQueryShowsAll` | public/script.js:105 | an empty query keeps every match, in order |
| `Client.IncludesTrim` | public/script.js:96 | a string always includes what `trim` keeps of it |
| `Client.IncludesMiddle` | public/script.js:106-107 | a query found in one piece of the joined search text is found in the whole text |
| `Client.LowerOfRow` | public/script.js:106 | the lower-cased row text is the lower-cased league part, home team and away part joined |
| `Client.SearchFindsHomeTeam` | public/script.js:96-108 | typing a home team's name in any letter case keeps its match in the table |
| `Client.CountVisibleBounds` | public/script.js:99-109 | the row count never exceeds the number of matches, and is zero when no league is switched on |
| `Client.CountVisibleAll` | public/script.js:99-109 | with every league switched on and an empty query, every match is counted |
| `Slip.FirstWith` | public/script.js:47 | `find` by match id: nothing exactly when no entry has that id; otherwise the position of the first entry that has it |
| `Slip.FirstWithIs` | public/script.js:47 | the first position holding the id is what `find` returns |
| `Slip.Without` | public/script.js:51 | the `filter` keeps exactly the entries of other matches |
| `Slip.WithoutAbsent` | public/script.js:51 | filtering out a match that is not on the slip changes nothing |
| `Slip.WithoutAppend` | public/script.js:51 | the filter distributes over concatenation |
| `Slip.WithoutUpdate` | public/script.js:58-60 | rewriting an entry in place is invisible once its match is filtered out |
| `Slip.WithoutKeepsOnePerMatch` | public/script.js:51 | the filter keeps the slip free of duplicates |
| `Slip.WithoutOne` | public/script.js:51 | filtering out a match held at exactly one position removes exactly one entry |
| `Slip.ToggleFlipsPick` | public/script.js:45-67 | after a press, the match's pick is cleared when the pressed outcome was already picked, and is the pressed outcome otherwise |
| `Slip.ToggleSetsPrice` | public/script.js:58-62 | after a press that does not clear the pick, the match's entry holds the pressed outcome and the price passed with it; an existing entry keeps its team names, a new one takes the match's |
| `Slip.ToggleUpdatesInPlace` | public/script.js:58-60 | a changed pick rewrites outcome and price of the existing entry at the same position; every other entry and the length stay as they were |
| `Slip.ToggleAppendsNew` | public/script.js:61-62 | a pick for a match not on the slip is appended after the unchanged slip, with the match's id, the outcome, the price and the team names |
| `Slip.ToggleLeavesOtherMatches` | public/script.js:45-67 | a press never adds, removes, changes or reorders an entry of another match |
| `Slip.ToggleKeepsOnePerMatch` | public/script.js:44-67 | the slip keeps at most one entry per match |
| `Slip.ToggleLength` | public/script.js:45-67 | a press on a new match adds one entry; a repeated pick removes one; a changed pick keeps the length |
| `Slip.ToggleTwiceRestores` | public/script.js:45-67 | pressing the same button twice on a match not on the slip gives back the slip as it was |
| `Slip.AppState.constructor` | public/script.js:2-6 | the page starts with no leagues, an empty slip and no league switched on |
| `Slip.AppState.SaveSlip` | public/script.js:76-78 | the stored copy becomes the current slip |
| `Slip.AppState.LoadSlip` | public/script.js:79-84 | a missing entry gives an empty slip; a stored array replaces the slip; unparsable or non-array data leaves it alone |
| `Slip.AppState.ToggleSelection` | public/script.js:45-67 | the slip becomes `Toggled` of the old slip, and is saved |
| `Slip.AppState.BuildLeagueChips` | public/script.js:87-93 | with no league switched on, every league on show is switched on; otherwise the chips are unchanged |
| `Slip.AppState.RenderMatches` | public/script.js:95-135 | the count of drawn rows is `CountVisible` of the leagues, the switched-on chips and the lower-cased, trimmed query |
| `Slip.FreshPageShowsAll` | public/script.js:87-109 | after the chips are built on a fresh page, an empty search counts every match on show |

## Left out

- The upstream fan-out is left out: the per-league URLs, `fetch`, JSON parsing and `Promise.all`. The handler receives each league's name and a `Feed` value. A rejected fetch or parse is the `Rejected` feed, which gives the 500 answer.
- A feed that is a truthy object with a `length` property of 0 is skipped by the source. The model has no such value: every truthy non-list is `NotAList`.
- Missing `home_team`, `away_team` or outcome `name` fields are left out; the model's names are always strings. `toLowerCase` on a missing `name` would throw and end in the 500 answer.
- Other ill-typed feed contents that make the handler throw a TypeError, and so end in the 500 answer, are left out: a `null` game in a list, a truthy `commence_time` that is not a string (server.js:46), and a truthy `markets` or `outcomes` that is not a list (server.js:56, server.js:58). The typed `Game`, `Bookmaker` and `Market` values cannot hold them.
- The Express routing, the static file server and `app.listen` are not modelled. Neither is the error logging to the console.
- `proxy.js`, `public/app.js` and `functions/matches/[date].js` are not part of this model.
- Prices are copied, never computed with. They are kept as exact reals, and the model does not look at JSON number formatting.
- `Text.Lower`: only ASCII letters are lower-cased. This is exact for the server's "draw" test (see `Text.LowerIsDraw`). For the client search it leaves out Unicode case mapping of team and league names.
- The client's DOM work is left out: building the league sections and table rows, `fmtTime`, `updateCellsSelection`, `renderSlip`, the odds-cell click handlers, and the event listeners on the date picker, the refresh button and the search box.
- `Slip.AppState.RenderMatches` models only the rows counted; the text of the count label is left out.
- `loadMatchesFor` (fetching `/matches/:date` from the page) is left out. Its date comes from `Client.NormalizeDateInput`; `Client.NormalizedDateAccepted` states what the server makes of it.
- The current date is a parameter `today` of `Client.NormalizeDateInput`; the clock is left out.
- Browser storage is the field `storage` of `AppState`. It holds the outcome of reading and parsing the `matchiq_slip` entry. A failing `setItem` (storage full or disabled) is left out: `SaveSlip` always stores.
- `LoadSlip` takes a stored array as a list of well-formed selections. The source accepts any array.
- The odds cells pass `Number(m.odds[key])` as the price of a pick. The model passes the match's `Price` value through unchanged; it leaves out the conversion of `null` to 0 and of a missing price to `NaN`.
- The slip's combined odds (`renderSlip`) are a floating-point product and are left out.
- `idOf` joins strings; a `utcDate` that is not a string is left out.
