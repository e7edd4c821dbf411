/** Lineups as the Sofascore scraper reads them: a list of player entries per
    team, each flagged as a substitute or not. Reading a team fills in an
    empty "statistics" record for every entry that lacks one. */
module Sofascore {
  import opened Wrappers
  import opened Text
  import opened Ratings

  const TeamIds: map<int, String> := map[
    3106 := "Legia Warszawa",
    3110 := "Górnik Zabrze",
    3112 := "GKS Katowice",
    3113 := "Zagłębie Lubin",
    3115 := "Widzew Łódź",
    3117 := "Pogoń Szczecin",
    3121 := "Lech Poznań",
    3122 := "Wisła Płock",
    4901 := "Cracovia Kraków",
    5064 := "Arka Gdynia",
    5065 := "Korona Kielce",
    7295 := "Radomiak Radom",
    7691 := "Jagiellonia Białystok",
    7913 := "Lechia Gdańsk",
    7915 := "Motor Lublin",
    7918 := "Piast Gliwice",
    35268 := "Raków Częstochowa",
    36851 := "Bruk-Bet Termalica Nieciecza"
  ]

  /** An entry's "statistics": each key present or not. */
  datatype Stats = Stats(
    rating: Option<real>, minutesPlayed: Option<int>, goals: Option<int>,
    goalsAssist: Option<int>, fouls: Option<int>)

  /** The empty "statistics" that `setdefault` inserts. */
  const NoStats := Stats(None, None, None, None, None)

  datatype PlayerInfo = PlayerInfo(
    name: String, country: Country, jerseyNumber: int, position: String,
    height: int, birthTimestamp: int)

  /** A player entry; `statistics` is None when the key is absent. */
  datatype Entry = Entry(teamId: int, player: PlayerInfo, statistics: Option<Stats>, substitute: bool)

  function StatsOf(e: Entry): Stats {
    if e.statistics.Some? then e.statistics.value else NoStats
  }

  /** The entry after `setdefault("statistics", {})`. */
  function WithStats(e: Entry): (r: Entry)
    ensures r.statistics.Some? && StatsOf(r) == StatsOf(e)
    ensures r.statistics != e.statistics ==> e.statistics.None? && r.statistics == Some(NoStats)
    ensures r.teamId == e.teamId && r.player == e.player && r.substitute == e.substitute
  {
    e.(statistics := Some(StatsOf(e)))
  }

  /** The player of an entry: its player record's fields, always present,
      and its statistics by their keys; with no statistics every statistic
      is None. */
  function PlayerOf(e: Entry): (r: Player)
    ensures r.name == e.player.name && r.jerseyNumber == e.player.jerseyNumber
    ensures r.country == Codes(e.player.country)
    ensures r.position == Some(e.player.position) && r.height == Some(e.player.height)
      && r.birthTimestamp == Some(e.player.birthTimestamp)
    ensures e.statistics.None? ==>
      r.rating.None? && r.minutesPlayed.None? && r.goals.None? && r.assists.None? && r.fouls.None?
    ensures e.statistics.Some? ==>
      && r.rating == e.statistics.value.rating
      && r.minutesPlayed == e.statistics.value.minutesPlayed
      && r.goals == e.statistics.value.goals
      && r.assists == e.statistics.value.goalsAssist
      && r.fouls == e.statistics.value.fouls
  {
    var s := StatsOf(e);
    Player(e.player.name, Codes(e.player.country), Some(e.player.position), e.player.jerseyNumber,
           Some(e.player.height), Some(e.player.birthTimestamp),
           s.rating, s.minutesPlayed, s.goals, s.goalsAssist, s.fouls)
  }

  predicate IsStarter(e: Entry) { !e.substitute }

  predicate IsSubstitute(e: Entry) { e.substitute }

  /** The team of a list of entries: named after the first entry's team ID,
      the starters being the entries not flagged as substitutes and the
      substitutions the flagged ones, each in list order. */
  function TeamOf(entries: seq<Entry>): Result<Team> {
    if |entries| == 0 then Err(IndexError)
    else if entries[0].teamId !in TeamIds then Err(KeyError)
    else Ok(Team(TeamIds[entries[0].teamId],
                 Map(Filter(entries, IsStarter), PlayerOf),
                 Map(Filter(entries, IsSubstitute), PlayerOf),
                 None))
  }

  /** An empty list is an IndexError and an unknown team a KeyError. */
  lemma TeamNameErrors(entries: seq<Entry>)
    ensures |entries| == 0 ==> TeamOf(entries) == Err(IndexError)
    ensures |entries| > 0 && entries[0].teamId !in TeamIds ==> TeamOf(entries) == Err(KeyError)
    ensures TeamOf(entries).Ok? <==> |entries| > 0 && entries[0].teamId in TeamIds
  {
  }

  /** Every entry lands in exactly one of the two lists. */
  lemma TeamPartition(entries: seq<Entry>)
    requires TeamOf(entries).Ok?
    ensures |TeamOf(entries).value.starters| + |TeamOf(entries).value.substitutions| == |entries|
  {
    FilterSplits(entries, IsStarter, IsSubstitute);
  }

  /** An entry's player is among the starters when it is not flagged and
      among the substitutions when it is. */
  lemma EntryPlaced(entries: seq<Entry>, e: Entry)
    requires TeamOf(entries).Ok? && e in entries
    ensures !e.substitute ==> PlayerOf(e) in TeamOf(entries).value.starters
    ensures e.substitute ==> PlayerOf(e) in TeamOf(entries).value.substitutions
  {
    if e.substitute {
      FilterMember(entries, IsSubstitute, e);
      MapMember(Filter(entries, IsSubstitute), e, PlayerOf);
    } else {
      FilterMember(entries, IsStarter, e);
      MapMember(Filter(entries, IsStarter), e, PlayerOf);
    }
  }

  lemma MapMember<T, U>(items: seq<T>, x: T, f: T -> U)
    requires x in items
    ensures f(x) in Map(items, f)
  {
    var i :| 0 <= i < |items| && items[i] == x;
    assert Map(items, f)[i] == f(x);
  }

  /** Filling in the statistics changes no player, so it does not change the
      team read from the entries. */
  lemma TeamOfFilled(entries: seq<Entry>)
    ensures TeamOf(Map(entries, WithStats)) == TeamOf(entries)
  {
    if |entries| > 0 {
      PlayersFilled(entries, IsStarter);
      PlayersFilled(entries, IsSubstitute);
    }
  }

  lemma PlayersFilled(entries: seq<Entry>, keep: Entry -> bool)
    requires forall e :: keep(WithStats(e)) == keep(e)
    ensures Map(Filter(Map(entries, WithStats), keep), PlayerOf) == Map(Filter(entries, keep), PlayerOf)
  {
    forall e ensures PlayerOf(WithStats(e)) == PlayerOf(e) {}
    KeptImagesUnchanged(entries, WithStats, keep, PlayerOf);
  }

  /** Changing the items in a way that neither `keep` nor `out` sees does not
      change what is kept and read out. */
  lemma {:induction false} KeptImagesUnchanged<T, U>(items: seq<T>, change: T -> T, keep: T -> bool, out: T -> U)
    requires forall x :: keep(change(x)) == keep(x) && out(change(x)) == out(x)
    ensures Map(Filter(Map(items, change), keep), out) == Map(Filter(items, keep), out)
    decreases |items|
  {
    if |items| > 0 {
      var front, x := items[..|items| - 1], items[|items| - 1];
      KeptImagesUnchanged(front, change, keep, out);
      assert Map(items, change) == Map(front, change) + [change(x)] by {
        assert items == front + [x];
        MapSnoc(front, x, change);
      }
      FilterSnoc(Map(front, change), change(x), keep);
      FilterSnoc(front, x, keep);
      if keep(x) {
        MapSnoc(Filter(Map(front, change), keep), change(x), out);
        MapSnoc(Filter(front, keep), x, out);
      } else {
        assert Filter(Map(front, change), keep) + [] == Filter(Map(front, change), keep);
        assert Filter(front, keep) + [] == Filter(front, keep);
      }
    }
  }

  /** `_process_team`: reads the team and fills in every missing
      "statistics" on the way; the name lookup fails before any entry is
      touched. */
  method ProcessTeam(data: array<Entry>) returns (r: Result<Team>)
    modifies data
    ensures r == TeamOf(old(data[..]))
    ensures r.Ok? ==> data[..] == Map(old(data[..]), WithStats)
    ensures r.Err? ==> data[..] == old(data[..])
  {
    if data.Length == 0 {
      return Err(IndexError);
    }
    if data[0].teamId !in TeamIds {
      return Err(KeyError);
    }
    var teamName := TeamIds[data[0].teamId];
    ghost var entries := data[..];
    var starters, subs := [], [];
    for i := 0 to data.Length
      invariant data[..i] == Map(entries[..i], WithStats)
      invariant forall j :: i <= j < data.Length ==> data[j] == entries[j]
      invariant starters == Map(Filter(entries[..i], IsStarter), PlayerOf)
      invariant subs == Map(Filter(entries[..i], IsSubstitute), PlayerOf)
    {
      ghost var before := data[..];
      FillStats(data, i);
      assert data[..i + 1] == before[..i] + [WithStats(entries[i])];
      FilledStep(entries, i);
      PlacedStep(entries, i, IsStarter);
      PlacedStep(entries, i, IsSubstitute);
      var player := PlayerOf(data[i]);
      if data[i].substitute {
        subs := subs + [player];
      } else {
        starters := starters + [player];
      }
    }
    assert entries[..data.Length] == entries;
    return Ok(Team(teamName, starters, subs, None));
  }

  /** An entry without statistics gets the empty ones. */
  method FillStats(data: array<Entry>, i: nat)
    requires i < data.Length
    modifies data
    ensures data[..] == old(data[..])[i := WithStats(old(data[i]))]
  {
    if data[i].statistics.None? {
      data[i] := data[i].(statistics := Some(NoStats));
    }
  }

  lemma FilledStep(entries: seq<Entry>, i: nat)
    requires i < |entries|
    ensures Map(entries[..i + 1], WithStats) == Map(entries[..i], WithStats) + [WithStats(entries[i])]
  {
    assert entries[..i + 1] == entries[..i] + [entries[i]];
    MapSnoc(entries[..i], entries[i], WithStats);
  }

  /** One more entry adds its player to the list `keep` selects, if any. */
  lemma PlacedStep(entries: seq<Entry>, i: nat, keep: Entry -> bool)
    requires i < |entries|
    ensures Map(Filter(entries[..i + 1], keep), PlayerOf)
      == Map(Filter(entries[..i], keep), PlayerOf) + (if keep(entries[i]) then [PlayerOf(entries[i])] else [])
  {
    assert entries[..i + 1] == entries[..i] + [entries[i]];
    FilterSnoc(entries[..i], entries[i], keep);
    if keep(entries[i]) {
      MapSnoc(Filter(entries[..i], keep), entries[i], PlayerOf);
    } else {
      assert Filter(entries[..i], keep) + [] == Filter(entries[..i], keep);
    }
  }

  /** The match of the home and the away entries; the home team is read
      first, so its error is the one raised. */
  function MatchOf(home: seq<Entry>, away: seq<Entry>): Result<Match> {
    var h := TeamOf(home);
    var a := TeamOf(away);
    if h.Err? then Err(h.error)
    else if a.Err? then Err(a.error)
    else Ok(Match(h.value, a.value, None, None, None))
  }

  /** The match's sides are the two teams read from their own lists. */
  lemma MatchSides(home: seq<Entry>, away: seq<Entry>)
    ensures MatchOf(home, away).Ok? <==> TeamOf(home).Ok? && TeamOf(away).Ok?
    ensures MatchOf(home, away).Ok? ==>
      MatchOf(home, away).value.home == TeamOf(home).value && MatchOf(home, away).value.away == TeamOf(away).value
    ensures TeamOf(home).Err? ==> MatchOf(home, away) == Err(TeamOf(home).error)
  {
  }

  /** `fetch_match` after the JSON is fetched: the home players, then the
      away players, which may be the very same list. */
  method FetchMatch(home: array<Entry>, away: array<Entry>) returns (r: Result<Match>)
    modifies home, away
    ensures r == MatchOf(old(home[..]), old(away[..]))
  {
    ghost var awayBefore := away[..];
    var homeTeam := ProcessTeam(home);
    if homeTeam.Err? {
      return Err(homeTeam.error);
    }
    ghost var awayNow := away[..];
    assert TeamOf(awayNow) == TeamOf(awayBefore) by {
      if away == home {
        TeamOfFilled(awayBefore);
      }
    }
    var awayTeam := ProcessTeam(away);
    if awayTeam.Err? {
      return Err(awayTeam.error);
    }
    return Ok(Match(homeTeam.value, awayTeam.value, None, None, None));
  }
}
