/** The page state of the browser script (`state`): the leagues on show, the
    bet slip with at most one selection per match, the switched-on league
    chips, and the saved copy of the slip in the browser's storage. */
module Slip {
  import opened Options
  import opened Server
  import opened Client

  /** One entry of the bet slip: the match it belongs to, the outcome picked
      and its price, and the team names shown on the slip. */
  datatype Selection = Selection(matchId: string, outcome: string, odd: Price, home: string, away: string)

  /** What reading the `matchiq_slip` storage entry and parsing it as JSON
      gives: no entry, text that is not JSON, JSON that is not an array, or
      an array of selections. */
  datatype StoredSlip = Missing | Malformed | NotArray | SlipArray(items: seq<Selection>)

  /** `selections.find(s => s.matchId === id)`, as a position: the first
      selection for that match, if there is one. */
  function FirstWith(sels: seq<Selection>, id: string): (r: Option<nat>)
    ensures r.None? <==> forall i :: 0 <= i < |sels| ==> sels[i].matchId != id
    ensures r.Some? ==> r.value < |sels| && sels[r.value].matchId == id
    ensures r.Some? ==> forall j :: 0 <= j < r.value ==> sels[j].matchId != id
  {
    if sels == [] then None
    else if sels[0].matchId == id then Some(0)
    else match FirstWith(sels[1..], id)
      case None => None
      case Some(i) => Some(i + 1)
  }

  /** `selections.filter(s => s.matchId !== id)`. */
  function Without(sels: seq<Selection>, id: string): (r: seq<Selection>)
    ensures |r| <= |sels|
    ensures forall s :: s in r <==> s in sels && s.matchId != id
  {
    if sels == [] then []
    else
      var head := if sels[0].matchId == id then [] else [sels[0]];
      head + Without(sels[1..], id)
  }

  /** `toggleSelection(match, outcome, odd)` on the list of selections:
      picking the outcome already picked for a match removes the match from
      the slip; picking another outcome replaces outcome and price of the
      existing entry where it stands; picking for a new match appends an
      entry. */
  function Toggled(sels: seq<Selection>, m: Match, outcome: string, odd: Price): seq<Selection> {
    var id := IdOf(m);
    match FirstWith(sels, id)
      case Some(i) =>
        if sels[i].outcome == outcome then Without(sels, id)
        else sels[i := sels[i].(outcome := outcome, odd := odd)]
      case None => sels + [Selection(id, outcome, odd, m.home, m.away)]
  }

  /** The outcome the slip holds for a match, as the odds table highlights
      it. */
  function Picked(sels: seq<Selection>, id: string): Option<string> {
    match FirstWith(sels, id)
      case None => None
      case Some(i) => Some(sels[i].outcome)
  }

  /** The entry the slip holds for a match: outcome, price and team names. */
  function Entry(sels: seq<Selection>, id: string): Option<Selection> {
    match FirstWith(sels, id)
      case None => None
      case Some(i) => Some(sels[i])
  }

  /** At most one selection per match. */
  predicate OnePerMatch(sels: seq<Selection>) {
    forall i, j :: 0 <= i < j < |sels| ==> sels[i].matchId != sels[j].matchId
  }

  /** When `i` is the first position holding `id`, `find` gives `i`. */
  lemma FirstWithIs(sels: seq<Selection>, id: string, i: nat)
    requires i < |sels| && sels[i].matchId == id
    requires forall j :: 0 <= j < i ==> sels[j].matchId != id
    ensures FirstWith(sels, id) == Some(i)
  {
  }

  /** Filtering out a match that is not on the slip changes nothing. */
  lemma {:induction false} WithoutAbsent(sels: seq<Selection>, id: string)
    requires forall i :: 0 <= i < |sels| ==> sels[i].matchId != id
    ensures Without(sels, id) == sels
  {
    if sels != [] {
      WithoutAbsent(sels[1..], id);
      assert [sels[0]] + sels[1..] == sels;
    }
  }

  /** Filtering distributes over concatenation. */
  lemma {:induction false} WithoutAppend(a: seq<Selection>, b: seq<Selection>, id: string)
    ensures Without(a + b, id) == Without(a, id) + Without(b, id)
  {
    if a == [] {
      assert a + b == b;
    } else {
      assert (a + b)[0] == a[0];
      assert (a + b)[1..] == a[1..] + b;
      WithoutAppend(a[1..], b, id);
    }
  }

  /** Rewriting an entry of match `id` into another entry of match `id` is
      invisible once `id` is filtered out. */
  lemma {:induction false} WithoutUpdate(sels: seq<Selection>, id: string, i: nat, x: Selection)
    requires i < |sels| && sels[i].matchId == id && x.matchId == id
    ensures Without(sels[i := x], id) == Without(sels, id)
  {
    if i > 0 {
      assert sels[i := x][1..] == sels[1..][i - 1 := x];
      WithoutUpdate(sels[1..], id, i - 1, x);
    } else {
      assert sels[i := x][1..] == sels[1..];
    }
  }

  /** Filtering keeps the slip free of duplicates. */
  lemma {:induction false} WithoutKeepsOnePerMatch(sels: seq<Selection>, id: string)
    requires OnePerMatch(sels)
    ensures OnePerMatch(Without(sels, id))
  {
    if sels != [] {
      var rest := Without(sels[1..], id);
      WithoutKeepsOnePerMatch(sels[1..], id);
      if sels[0].matchId != id {
        var r := [sels[0]] + rest;
        forall i, j | 0 <= i < j < |r|
          ensures r[i].matchId != r[j].matchId
        {
          if i == 0 {
            assert r[j] in sels[1..];
          }
        }
      }
    }
  }

  /** The state machine of one button press, as the odds table shows it:
      pressing the outcome already picked for a match clears the pick,
      pressing any other outcome picks it. */
  lemma ToggleFlipsPick(sels: seq<Selection>, m: Match, outcome: string, odd: Price)
    ensures Picked(Toggled(sels, m, outcome, odd), IdOf(m))
         == if Picked(sels, IdOf(m)) == Some(outcome) then None else Some(outcome)
  {
    var id := IdOf(m);
    var r := Toggled(sels, m, outcome, odd);
    match FirstWith(sels, id)
      case Some(i) =>
        if sels[i].outcome != outcome {
          FirstWithIs(r, id, i);
        }
      case None =>
        FirstWithIs(r, id, |sels|);
  }

  /** After a press that does not clear the pick, the match's entry holds
      the pressed outcome and the price passed with it. An entry that was
      already there keeps its team names; a new one takes the match's. */
  lemma ToggleSetsPrice(sels: seq<Selection>, m: Match, outcome: string, odd: Price)
    requires Picked(sels, IdOf(m)) != Some(outcome)
    ensures Entry(Toggled(sels, m, outcome, odd), IdOf(m))
         == match Entry(sels, IdOf(m))
            case None => Some(Selection(IdOf(m), outcome, odd, m.home, m.away))
            case Some(e) => Some(Selection(IdOf(m), outcome, odd, e.home, e.away))
  {
    var id := IdOf(m);
    var r := Toggled(sels, m, outcome, odd);
    match FirstWith(sels, id)
      case Some(i) =>
        FirstWithIs(r, id, i);
      case None =>
        FirstWithIs(r, id, |sels|);
  }

  /** A changed pick rewrites the existing entry where it stands: same
      position, same length, every other entry as it was. */
  lemma ToggleUpdatesInPlace(sels: seq<Selection>, m: Match, outcome: string, odd: Price, i: nat)
    requires FirstWith(sels, IdOf(m)) == Some(i) && sels[i].outcome != outcome
    ensures FirstWith(Toggled(sels, m, outcome, odd), IdOf(m)) == Some(i)
    ensures |Toggled(sels, m, outcome, odd)| == |sels|
    ensures Toggled(sels, m, outcome, odd)[i] == sels[i].(outcome := outcome, odd := odd)
    ensures forall j :: 0 <= j < |sels| && j != i ==> Toggled(sels, m, outcome, odd)[j] == sels[j]
  {
    FirstWithIs(Toggled(sels, m, outcome, odd), IdOf(m), i);
  }

  /** A pick for a match not on the slip is appended at the end, after the
      slip as it was. */
  lemma ToggleAppendsNew(sels: seq<Selection>, m: Match, outcome: string, odd: Price)
    requires FirstWith(sels, IdOf(m)).None?
    ensures |Toggled(sels, m, outcome, odd)| == |sels| + 1
    ensures Toggled(sels, m, outcome, odd)[..|sels|] == sels
    ensures Toggled(sels, m, outcome, odd)[|sels|] == Selection(IdOf(m), outcome, odd, m.home, m.away)
  {
  }

  /** Pressing a button never touches the entries of other matches: the
      slip without this match is the same, in the same order, before and
      after. */
  lemma ToggleLeavesOtherMatches(sels: seq<Selection>, m: Match, outcome: string, odd: Price)
    ensures Without(Toggled(sels, m, outcome, odd), IdOf(m)) == Without(sels, IdOf(m))
  {
    var id := IdOf(m);
    var added := Selection(id, outcome, odd, m.home, m.away);
    match FirstWith(sels, id)
      case Some(i) =>
        if sels[i].outcome == outcome {
          WithoutAbsent(Without(sels, id), id);
        } else {
          WithoutUpdate(sels, id, i, sels[i].(outcome := outcome, odd := odd));
        }
      case None =>
        WithoutAppend(sels, [added], id);
        assert Without([added], id) == [];
  }

  /** The slip never holds two entries for one match. */
  lemma ToggleKeepsOnePerMatch(sels: seq<Selection>, m: Match, outcome: string, odd: Price)
    requires OnePerMatch(sels)
    ensures OnePerMatch(Toggled(sels, m, outcome, odd))
  {
    var id := IdOf(m);
    match FirstWith(sels, id)
      case Some(i) =>
        if sels[i].outcome == outcome {
          WithoutKeepsOnePerMatch(sels, id);
        }
      case None =>
  }

  /** How the length of the slip changes: one more entry for a new match,
      one fewer for a repeated pick, the same for a changed pick. */
  lemma ToggleLength(sels: seq<Selection>, m: Match, outcome: string, odd: Price)
    requires OnePerMatch(sels)
    ensures Picked(sels, IdOf(m)).None? ==> |Toggled(sels, m, outcome, odd)| == |sels| + 1
    ensures Picked(sels, IdOf(m)) == Some(outcome) ==> |Toggled(sels, m, outcome, odd)| == |sels| - 1
    ensures Picked(sels, IdOf(m)).Some? && Picked(sels, IdOf(m)) != Some(outcome) ==> |Toggled(sels, m, outcome, odd)| == |sels|
  {
    var id := IdOf(m);
    match FirstWith(sels, id)
      case Some(i) =>
        if sels[i].outcome == outcome {
          WithoutOne(sels, id, i);
        }
      case None =>
  }

  /** Filtering out a match that sits at exactly one position removes one
      entry. */
  lemma {:induction false} WithoutOne(sels: seq<Selection>, id: string, i: nat)
    requires i < |sels| && sels[i].matchId == id
    requires forall j :: 0 <= j < |sels| && j != i ==> sels[j].matchId != id
    ensures |Without(sels, id)| == |sels| - 1
  {
    assert sels == sels[..i] + [sels[i]] + sels[i + 1..];
    WithoutAppend(sels[..i] + [sels[i]], sels[i + 1..], id);
    WithoutAppend(sels[..i], [sels[i]], id);
    WithoutAbsent(sels[..i], id);
    WithoutAbsent(sels[i + 1..], id);
    assert Without([sels[i]], id) == [];
  }

  /** Pressing the same button twice on a match that was not on the slip
      gives the slip back as it was. */
  lemma ToggleTwiceRestores(sels: seq<Selection>, m: Match, outcome: string, odd: Price)
    requires Picked(sels, IdOf(m)).None?
    ensures Toggled(Toggled(sels, m, outcome, odd), m, outcome, odd) == sels
  {
    var id := IdOf(m);
    var added := Selection(id, outcome, odd, m.home, m.away);
    var once := sels + [added];
    FirstWithIs(once, id, |sels|);
    WithoutAppend(sels, [added], id);
    WithoutAbsent(sels, id);
    assert Without([added], id) == [];
  }

  /** The page's `state`, together with the browser-storage entry that
      saves the slip between visits. */
  class AppState {
    var leagues: seq<LeagueMatches>
    var selections: seq<Selection>
    var activeLeagues: set<string>
    var storage: StoredSlip

    /** The state on page load, before anything is read from storage. */
    constructor (stored: StoredSlip)
      ensures leagues == [] && selections == [] && activeLeagues == {} && storage == stored
    {
      leagues := [];
      selections := [];
      activeLeagues := {};
      storage := stored;
    }

    /** `saveSlip()`: the slip is written to storage. */
    method SaveSlip()
      modifies this`storage
      ensures storage == SlipArray(selections)
    {
      storage := SlipArray(selections);
    }

    /** `loadSlip()`: a missing entry reads as an empty array; a parsed
        array replaces the slip; text that does not parse or parses to
        something else leaves the slip alone. */
    method LoadSlip()
      modifies this`selections
      ensures storage.Missing? ==> selections == []
      ensures storage.SlipArray? ==> selections == storage.items
      ensures storage.Malformed? || storage.NotArray? ==> selections == old(selections)
    {
      match storage
        case Missing => selections := [];
        case SlipArray(items) => selections := items;
        case Malformed =>
        case NotArray =>
    }

    /** `toggleSelection(match, outcome, odd)`: the slip becomes Toggled of
        the old slip and is saved. */
    method ToggleSelection(m: Match, outcome: string, odd: Price)
      modifies this`selections, this`storage
      ensures selections == Toggled(old(selections), m, outcome, odd)
      ensures storage == SlipArray(selections)
    {
      var matchId := IdOf(m);
      var existing := FirstWith(selections, matchId);
      if existing.Some? && selections[existing.value].outcome == outcome {
        selections := Without(selections, matchId);
        SaveSlip();
        return;
      }
      match existing {
        case Some(i) =>
          selections := selections[i := selections[i].(outcome := outcome, odd := odd)];
        case None =>
          selections := selections + [Selection(matchId, outcome, odd, m.home, m.away)];
      }
      SaveSlip();
    }

    /** `buildLeagueChips()`: when no league is switched on, every league
        on show is switched on; otherwise the chips stay as they are. */
    method BuildLeagueChips()
      modifies this`activeLeagues
      ensures old(activeLeagues) == {} ==> activeLeagues == set l | l in leagues :: l.name
      ensures old(activeLeagues) != {} ==> activeLeagues == old(activeLeagues)
    {
      if |activeLeagues| == 0 {
        var k := 0;
        while k < |leagues|
          invariant 0 <= k <= |leagues|
          invariant activeLeagues == set l | l in leagues[..k] :: l.name
        {
          assert leagues[..k + 1] == leagues[..k] + [leagues[k]];
          activeLeagues := activeLeagues + {leagues[k].name};
          k := k + 1;
        }
        assert leagues[..k] == leagues;
      }
    }

    /** The count of `renderMatches()`: one for every row it draws, that is
        for every match of a switched-on league that the search query lets
        through. */
    method RenderMatches(searchValue: string) returns (visible: nat)
      ensures visible == CountVisible(leagues, activeLeagues, Query(searchValue))
    {
      var q := Query(searchValue);
      visible := 0;
      var k := 0;
      while k < |leagues|
        invariant 0 <= k <= |leagues|
        invariant visible + CountVisible(leagues[k..], activeLeagues, q) == CountVisible(leagues, activeLeagues, q)
      {
        var league := leagues[k];
        assert leagues[k..][1..] == leagues[k + 1..];
        if league.name in activeLeagues {
          var filtered := VisibleIn(league.name, league.matches, q);
          if |filtered| != 0 {
            var j := 0;
            while j < |filtered|
              invariant 0 <= j <= |filtered|
              invariant visible + (|filtered| - j) + CountVisible(leagues[k + 1..], activeLeagues, q) == CountVisible(leagues, activeLeagues, q)
            {
              visible := visible + 1;
              j := j + 1;
            }
          }
        }
        k := k + 1;
      }
    }
  }

  /** With a non-empty set of switched-on leagues and an empty search box,
      the count is every match of those leagues; after the chips are built
      for a fresh page, it is every match on show. */
  lemma FreshPageShowsAll(leagues: seq<LeagueMatches>)
    ensures CountVisible(leagues, set l | l in leagues :: l.name, Query("")) == TotalMatches(leagues)
  {
    assert Query("") == [];
    CountVisibleAll(leagues, set l | l in leagues :: l.name);
  }
}
