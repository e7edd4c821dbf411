/** Lineups as the Flashscore scraper reads them. Each team's lineup names
    groups of player IDs ("Starting lineups", "Substitutes", ...), its
    coaches and its players; every player goes to the starters or the
    substitutions by the group its ID is in, in the order of the lineup. */
module Flashscore {
  import opened Wrappers
  import opened Text
  import opened Ratings

  const TeamIds: map<String, String> := map[
    "veCn0USa" := "Arka Gdynia",
    "QDZZYiU0" := "Bruk-Bet Termalica Nieciecza",
    "nLFfb8cC" := "Cracovia Kraków",
    "8UhCGkDt" := "GKS Katowice",
    "YwwrXVbD" := "Górnik Zabrze",
    "hII2dnSO" := "Jagiellonia Białystok",
    "zaN87CzQ" := "Korona Kielce",
    "OKaSC7C5" := "Lech Poznań",
    "tbVbkDEs" := "Lechia Gdańsk",
    "GfdKETsg" := "Legia Warszawa",
    "pSqTfZjK" := "Motor Lublin",
    "dYczBosI" := "Piast Gliwice",
    "6sEv2jbm" := "Pogoń Szczecin",
    "U1zNq9rJ" := "Radomiak Radom",
    "dlxFoVD6" := "Raków Częstochowa",
    "h0ySzEal" := "Widzew Łódź",
    "n19fgMFF" := "Wisła Płock",
    "lOY6miqf" := "Zagłębie Lubin"
  ]

  datatype Group = Group(name: String, playerIds: seq<String>)

  /** A coach entry: its "listName" and "teamName", where present. */
  datatype Coach = Coach(listName: Option<String>, teamName: Option<String>)

  /** A player entry. `roles` holds the "suffix" of each of the player's
      roles (None for a role without one); `rating` is the already converted
      "rating"/"value". */
  datatype PlayerData = PlayerData(
    id: String, listName: String, teamName: String, number: String,
    roles: seq<Option<String>>, rating: Option<real>)

  datatype Lineup = Lineup(groups: seq<Group>, coaches: seq<Coach>, players: seq<PlayerData>)

  datatype TeamData = TeamData(id: String, lineup: Lineup)

  /** An event participant: the "side" of its "type" (None when absent). */
  datatype Participant = Participant(side: Option<String>, team: TeamData)

  // ---------------------------------------------------------------------------
  // _process_grouping

  /** How `_process_grouping` reads a group's name: the first of "start" and
      "substitute" that the lower-cased name contains. */
  datatype GroupKind = Starting | Substitutes | Unknown

  function KindOf(g: Group): GroupKind {
    var name := Lower(g.name);
    if Contains(name, "start") then Starting
    else if Contains(name, "substitute") then Substitutes
    else Unknown
  }

  /** The starter and substitute IDs of a lineup. */
  datatype Ids = Ids(starters: set<String>, subs: set<String>)

  /** The IDs gathered from the groups (`kindOf` stands for `KindOf`); a
      group of neither kind is an error. */
  function Grouping(groups: seq<Group>, kindOf: Group -> GroupKind): Result<Ids> {
    if |groups| == 0 then Ok(Ids({}, {}))
    else
      var r := Grouping(groups[..|groups| - 1], kindOf);
      var g := groups[|groups| - 1];
      if r.Err? then r
      else match kindOf(g)
        case Starting => Ok(Ids(r.value.starters + IdSet(g.playerIds), r.value.subs))
        case Substitutes => Ok(Ids(r.value.starters, r.value.subs + IdSet(g.playerIds)))
        case Unknown => Err(ParsingError)
  }

  function IdSet(ids: seq<String>): (r: set<String>)
    ensures forall id :: id in r <==> id in ids
  {
    set id | id in ids
  }

  /** A grouping fails exactly when some group is of neither kind, and then
      with a ParsingError. */
  lemma {:induction false} GroupingFails(groups: seq<Group>, kindOf: Group -> GroupKind)
    ensures Grouping(groups, kindOf).Err? <==> exists k :: 0 <= k < |groups| && kindOf(groups[k]) == Unknown
    ensures Grouping(groups, kindOf).Err? ==> Grouping(groups, kindOf).error == ParsingError
    decreases |groups|
  {
    if |groups| > 0 {
      var front := groups[..|groups| - 1];
      GroupingFails(front, kindOf);
      forall k | 0 <= k < |front| ensures groups[k] == front[k] { }
    }
  }

  /** An ID is a starter ID exactly when a start group lists it. */
  lemma {:induction false} GroupingStarters(groups: seq<Group>, kindOf: Group -> GroupKind, id: String)
    requires Grouping(groups, kindOf).Ok?
    ensures id in Grouping(groups, kindOf).value.starters <==>
      exists k :: 0 <= k < |groups| && kindOf(groups[k]) == Starting && id in groups[k].playerIds
    decreases |groups|
  {
    if |groups| > 0 {
      var front, g := groups[..|groups| - 1], groups[|groups| - 1];
      var kind := kindOf(g);
      GroupingStarters(front, kindOf, id);
      var before := Grouping(front, kindOf).value.starters;
      assert Grouping(groups, kindOf).value.starters == before + (if kind == Starting then IdSet(g.playerIds) else {});
      if id in before {
        var k :| 0 <= k < |front| && kindOf(front[k]) == Starting && id in front[k].playerIds;
        assert groups[k] == front[k];
      } else if kind == Starting && id in g.playerIds {
        assert groups[|groups| - 1] == g;
      }
      if exists k :: 0 <= k < |groups| && kindOf(groups[k]) == Starting && id in groups[k].playerIds {
        var k :| 0 <= k < |groups| && kindOf(groups[k]) == Starting && id in groups[k].playerIds;
        if k < |front| {
          assert front[k] == groups[k];
        }
      }
    }
  }

  /** An ID is a substitute ID exactly when a substitute group lists it. */
  lemma {:induction false} GroupingSubstitutes(groups: seq<Group>, kindOf: Group -> GroupKind, id: String)
    requires Grouping(groups, kindOf).Ok?
    ensures id in Grouping(groups, kindOf).value.subs <==>
      exists k :: 0 <= k < |groups| && kindOf(groups[k]) == Substitutes && id in groups[k].playerIds
    decreases |groups|
  {
    if |groups| > 0 {
      var front, g := groups[..|groups| - 1], groups[|groups| - 1];
      var kind := kindOf(g);
      GroupingSubstitutes(front, kindOf, id);
      var before := Grouping(front, kindOf).value.subs;
      assert Grouping(groups, kindOf).value.subs == before + (if kind == Substitutes then IdSet(g.playerIds) else {});
      if id in before {
        var k :| 0 <= k < |front| && kindOf(front[k]) == Substitutes && id in front[k].playerIds;
        assert groups[k] == front[k];
      } else if kind == Substitutes && id in g.playerIds {
        assert groups[|groups| - 1] == g;
      }
      if exists k :: 0 <= k < |groups| && kindOf(groups[k]) == Substitutes && id in groups[k].playerIds {
        var k :| 0 <= k < |groups| && kindOf(groups[k]) == Substitutes && id in groups[k].playerIds;
        if k < |front| {
          assert front[k] == groups[k];
        }
      }
    }
  }

  /** `_process_grouping`: the loop over the groups. */
  method ProcessGrouping(groups: seq<Group>) returns (r: Result<Ids>)
    ensures r == Grouping(groups, KindOf)
  {
    var starterIds, subsIds := {}, {};
    for i := 0 to |groups|
      invariant Grouping(groups[..i], KindOf) == Ok(Ids(starterIds, subsIds))
    {
      assert groups[..i + 1][..i] == groups[..i];
      var g := groups[i];
      var name := Lower(g.name);
      if Contains(name, "start") {
        starterIds := starterIds + IdSet(g.playerIds);
      } else if Contains(name, "substitute") {
        subsIds := subsIds + IdSet(g.playerIds);
      } else {
        GroupingErrSticks(groups, i + 1);
        return Err(ParsingError);
      }
    }
    assert groups[..|groups|] == groups;
    return Ok(Ids(starterIds, subsIds));
  }

  /** Once a prefix of the groups fails, the whole grouping fails the same way. */
  lemma {:induction false} GroupingErrSticks(groups: seq<Group>, i: nat)
    requires i <= |groups| && Grouping(groups[..i], KindOf).Err?
    ensures Grouping(groups, KindOf) == Grouping(groups[..i], KindOf)
    decreases |groups| - i
  {
    if i < |groups| {
      assert groups[..i + 1][..i] == groups[..i];
      GroupingErrSticks(groups, i + 1);
    } else {
      assert groups[..i] == groups;
    }
  }

  // ---------------------------------------------------------------------------
  // _process_manager, _process_position

  /** `_process_manager`: a manager only when the first coach has both a
      name and a country. */
  function ProcessManager(coaches: seq<Coach>): (r: Option<Manager>)
    ensures r.Some? <==> |coaches| > 0 && coaches[0].listName.Some? && coaches[0].teamName.Some?
    ensures r.Some? ==> r.value.name == coaches[0].listName.value && r.value.country == coaches[0].teamName.value
  {
    if |coaches| > 0 && coaches[0].listName.Some? && coaches[0].teamName.Some? then
      Some(Manager(coaches[0].listName.value, coaches[0].teamName.value))
    else None
  }

  /** `_process_position`: the first role's suffix without its parentheses. */
  function ProcessPosition(roles: seq<Option<String>>): (r: Option<String>)
    ensures r.Some? <==> |roles| > 0 && roles[0].Some?
    ensures r.Some? ==> |r.value| <= |roles[0].value|
    ensures r.Some? && |r.value| > 0 ==> r.value[0] != '(' && r.value[|r.value| - 1] != ')'
  {
    if |roles| > 0 && roles[0].Some? then Some(StripParens(roles[0].value)) else None
  }

  /** `s.strip("()")` */
  function StripParens(s: String): (r: String)
    ensures |r| <= |s|
    ensures |r| > 0 ==> r[0] !in {'(', ')'} && r[|r| - 1] !in {'(', ')'}
  {
    var l := LStripChars(s, {'(', ')'});
    var r := RStripChars(l, {'(', ')'});
    assert |r| > 0 ==> r[0] == l[0];
    r
  }

  /** A suffix in parentheses gives what is inside them. */
  lemma ParenthesizedPosition(position: String, rest: seq<Option<String>>)
    requires |position| > 0 && position[0] !in {'(', ')'} && position[|position| - 1] !in {'(', ')'}
    ensures ProcessPosition([Some("(" + position + ")")] + rest) == Some(position)
  {
    assert LStripChars("(" + position + ")", {'(', ')'}) == position + ")" by {
      LStripOpen(position);
    }
    assert RStripChars(position + ")", {'(', ')'}) == position by {
      RStripClose(position);
    }
  }

  lemma LStripOpen(position: String)
    requires |position| > 0 && position[0] !in {'(', ')'}
    ensures LStripChars("(" + position + ")", {'(', ')'}) == position + ")"
  {
    var s := "(" + position + ")";
    assert s[1..] == position + ")";
    assert (position + ")")[0] == position[0];
  }

  lemma RStripClose(position: String)
    requires |position| > 0 && position[|position| - 1] !in {'(', ')'}
    ensures RStripChars(position + ")", {'(', ')'}) == position
  {
    var s := position + ")";
    assert s[..|s| - 1] == position;
  }

  // ---------------------------------------------------------------------------
  // _process_team

  /** The player of an entry; `int()` of its number can fail. */
  function MakePlayer(pd: PlayerData): (r: Result<Player>)
    ensures r.Err? <==> ParseIntLiteral(pd.number).None?
    ensures r.Err? ==> r.error == ValueError
    ensures r.Ok? ==> r.value.name == pd.listName && r.value.jerseyNumber == ParseIntLiteral(pd.number).value
  {
    match ParseIntLiteral(pd.number)
    case None => Err(ValueError)
    case Some(n) =>
      Ok(Player(pd.listName, Named(pd.teamName), ProcessPosition(pd.roles), n,
                None, None, pd.rating, None, None, None, None))
  }

  /** The starters and the substitutions placed so far. */
  datatype Placed = Placed(starters: seq<Player>, subs: seq<Player>)

  /** `make` of each entry, or the first failure. */
  function MakeAll(players: seq<PlayerData>, make: PlayerData -> Result<Player>): Result<seq<Player>> {
    if |players| == 0 then Ok([])
    else
      var made := MakeAll(players[..|players| - 1], make);
      var p := make(players[|players| - 1]);
      if made.Err? then made
      else if p.Err? then Err(p.error)
      else Ok(made.value + [p.value])
  }

  /** The starters and the substitutions, in lineup order: each entry's
      player is made first (`make` stands for `MakePlayer`), then placed by
      its ID; an ID in neither set is an error. */
  function Assign(players: seq<PlayerData>, ids: Ids, make: PlayerData -> Result<Player>): Result<Placed> {
    if |players| == 0 then Ok(Placed([], []))
    else
      var r := Assign(players[..|players| - 1], ids, make);
      var pd := players[|players| - 1];
      var p := make(pd);
      if r.Err? then r
      else if p.Err? then Err(p.error)
      else if pd.id in ids.starters then Ok(Placed(r.value.starters + [p.value], r.value.subs))
      else if pd.id in ids.subs then Ok(Placed(r.value.starters, r.value.subs + [p.value]))
      else Err(ParsingError)
  }

  /** With every entry's player made, the lineup is placed exactly when every
      ID is a starter or a substitute ID. */
  lemma {:induction false} AssignSucceeds(players: seq<PlayerData>, ids: Ids, make: PlayerData -> Result<Player>)
    requires forall k :: 0 <= k < |players| ==> make(players[k]).Ok?
    ensures Assign(players, ids, make).Ok? <==>
      forall k :: 0 <= k < |players| ==> players[k].id in ids.starters || players[k].id in ids.subs
    decreases |players|
  {
    if |players| > 0 {
      var front := players[..|players| - 1];
      forall k | 0 <= k < |front| ensures front[k] == players[k] { }
      AssignSucceeds(front, ids, make);
    }
  }

  /** Whether an entry's ID is a starter ID. */
  function InStarters(ids: Ids): PlayerData -> bool {
    (pd: PlayerData) => pd.id in ids.starters
  }

  function NotInStarters(ids: Ids): PlayerData -> bool {
    (pd: PlayerData) => pd.id !in ids.starters
  }

  /** The starters are the players of the entries with a starter ID, in
      lineup order. */
  lemma {:induction false} AssignStarters(players: seq<PlayerData>, ids: Ids, make: PlayerData -> Result<Player>)
    requires Assign(players, ids, make).Ok?
    ensures MakeAll(Filter(players, InStarters(ids)), make) == Ok(Assign(players, ids, make).value.starters)
    decreases |players|
  {
    if |players| > 0 {
      var front, pd := players[..|players| - 1], players[|players| - 1];
      var keep := InStarters(ids);
      AssignStarters(front, ids, make);
      assert Filter(players, keep) == Filter(front, keep) + (if keep(pd) then [pd] else []);
      if keep(pd) {
        MakeAllSnoc(Filter(front, keep), pd, make);
      } else {
        assert Filter(front, keep) + [] == Filter(front, keep);
      }
    }
  }

  /** The substitutions are the players of the other entries, in lineup
      order. */
  lemma {:induction false} AssignSubstitutes(players: seq<PlayerData>, ids: Ids, make: PlayerData -> Result<Player>)
    requires Assign(players, ids, make).Ok?
    ensures MakeAll(Filter(players, NotInStarters(ids)), make) == Ok(Assign(players, ids, make).value.subs)
    decreases |players|
  {
    if |players| > 0 {
      var front, pd := players[..|players| - 1], players[|players| - 1];
      var keep := NotInStarters(ids);
      AssignSubstitutes(front, ids, make);
      assert Filter(players, keep) == Filter(front, keep) + (if keep(pd) then [pd] else []);
      if keep(pd) {
        MakeAllSnoc(Filter(front, keep), pd, make);
      } else {
        assert Filter(front, keep) + [] == Filter(front, keep);
      }
    }
  }

  /** Every entry lands in exactly one of the two lists. */
  lemma {:induction false} AssignCount(players: seq<PlayerData>, ids: Ids, make: PlayerData -> Result<Player>)
    requires Assign(players, ids, make).Ok?
    ensures |Assign(players, ids, make).value.starters| + |Assign(players, ids, make).value.subs| == |players|
    decreases |players|
  {
    if |players| > 0 {
      AssignCount(players[..|players| - 1], ids, make);
    }
  }

  /** A team read from a lineup has as its starters the players of the
      entries in a start group and as its substitutions those of the others,
      each in lineup order. */
  lemma TeamLineup(data: TeamData)
    requires TeamOf(data).Ok?
    ensures Grouping(data.lineup.groups, KindOf).Ok?
    ensures var ids := Grouping(data.lineup.groups, KindOf).value;
      && MakeAll(Filter(data.lineup.players, InStarters(ids)), MakePlayer) == Ok(TeamOf(data).value.starters)
      && MakeAll(Filter(data.lineup.players, NotInStarters(ids)), MakePlayer) == Ok(TeamOf(data).value.substitutions)
      && |TeamOf(data).value.starters| + |TeamOf(data).value.substitutions| == |data.lineup.players|
  {
    var ids := Grouping(data.lineup.groups, KindOf).value;
    AssignStarters(data.lineup.players, ids, MakePlayer);
    AssignSubstitutes(data.lineup.players, ids, MakePlayer);
    AssignCount(data.lineup.players, ids, MakePlayer);
  }

  lemma MakeAllSnoc(players: seq<PlayerData>, pd: PlayerData, make: PlayerData -> Result<Player>)
    requires MakeAll(players, make).Ok? && make(pd).Ok?
    ensures MakeAll(players + [pd], make) == Ok(MakeAll(players, make).value + [make(pd).value])
  {
    assert (players + [pd])[..|players|] == players;
  }

  /** `_process_team`: the team name by ID, the grouping, the manager, then
      the players. */
  function TeamOf(data: TeamData): Result<Team> {
    if data.id !in TeamIds then Err(KeyError)
    else
      var g := Grouping(data.lineup.groups, KindOf);
      if g.Err? then Err(g.error)
      else
        var placed := Assign(data.lineup.players, g.value, MakePlayer);
        if placed.Err? then Err(placed.error)
        else Ok(Team(TeamIds[data.id], placed.value.starters, placed.value.subs, ProcessManager(data.lineup.coaches)))
  }

  /** An unknown team ID is a KeyError. */
  lemma UnknownTeam(data: TeamData)
    requires data.id !in TeamIds
    ensures TeamOf(data) == Err(KeyError)
  {
  }

  method ProcessTeam(data: TeamData) returns (r: Result<Team>)
    ensures r == TeamOf(data)
  {
    if data.id !in TeamIds {
      return Err(KeyError);
    }
    var teamName := TeamIds[data.id];
    var lineup := data.lineup;
    var grouping := ProcessGrouping(lineup.groups);
    if grouping.Err? {
      return Err(grouping.error);
    }
    var ids := grouping.value;
    var manager := ProcessManager(lineup.coaches);
    var players := lineup.players;
    var starters, subs := [], [];
    for i := 0 to |players|
      invariant Assign(players[..i], ids, MakePlayer) == Ok(Placed(starters, subs))
    {
      assert players[..i + 1][..i] == players[..i];
      var player := MakePlayer(players[i]);
      if player.Err? {
        AssignErrSticks(players, ids, MakePlayer, i + 1);
        return Err(player.error);
      }
      if players[i].id in ids.starters {
        starters := starters + [player.value];
      } else if players[i].id in ids.subs {
        subs := subs + [player.value];
      } else {
        AssignErrSticks(players, ids, MakePlayer, i + 1);
        return Err(ParsingError);
      }
    }
    assert players[..|players|] == players;
    return Ok(Team(teamName, starters, subs, manager));
  }

  lemma {:induction false} AssignErrSticks(players: seq<PlayerData>, ids: Ids, make: PlayerData -> Result<Player>, i: nat)
    requires i <= |players| && Assign(players[..i], ids, make).Err?
    ensures Assign(players, ids, make) == Assign(players[..i], ids, make)
    decreases |players| - i
  {
    if i < |players| {
      assert players[..i + 1][..i] == players[..i];
      AssignErrSticks(players, ids, make, i + 1);
    } else {
      assert players[..i] == players;
    }
  }

  // ---------------------------------------------------------------------------
  // fetch_match

  /** The home and the away team read so far. */
  datatype Teams = Teams(home: Option<Team>, away: Option<Team>)

  /** The teams after the participants so far: each must have side "HOME" or
      "AWAY", and its team (`teamOf` stands for `TeamOf`) replaces the one on
      that side. */
  function Sides(participants: seq<Participant>, teamOf: TeamData -> Result<Team>): Result<Teams> {
    if |participants| == 0 then Ok(Teams(None, None))
    else
      var r := Sides(participants[..|participants| - 1], teamOf);
      var p := participants[|participants| - 1];
      if r.Err? then r
      else if p.side != Some("HOME") && p.side != Some("AWAY") then Err(ParsingError)
      else
        var t := teamOf(p.team);
        if t.Err? then Err(t.error)
        else if p.side == Some("HOME") then Ok(Teams(Some(t.value), r.value.away))
        else Ok(Teams(r.value.home, Some(t.value)))
  }

  /** The match of the participants; a side no participant filled is read
      unbound. */
  function MatchOf(participants: seq<Participant>, teamOf: TeamData -> Result<Team>): Result<Match> {
    var r := Sides(participants, teamOf);
    if r.Err? then Err(r.error)
    else if r.value.home.None? || r.value.away.None? then Err(UnboundLocalError)
    else Ok(Match(r.value.home.value, r.value.away.value, None, None, None))
  }

  /** A home and an away participant, in either order, make the match. */
  lemma HomeAndAway(h: TeamData, a: TeamData, homeFirst: bool, teamOf: TeamData -> Result<Team>)
    requires teamOf(h).Ok? && teamOf(a).Ok?
    ensures
      var ps := if homeFirst then [Participant(Some("HOME"), h), Participant(Some("AWAY"), a)]
                else [Participant(Some("AWAY"), a), Participant(Some("HOME"), h)];
      MatchOf(ps, teamOf) == Ok(Match(teamOf(h).value, teamOf(a).value, None, None, None))
  {
    var ps := if homeFirst then [Participant(Some("HOME"), h), Participant(Some("AWAY"), a)]
              else [Participant(Some("AWAY"), a), Participant(Some("HOME"), h)];
    assert ps[..1][..0] == [];
    assert Sides(ps[..1], teamOf).Ok?;
  }

  /** Two home participants leave the away team unbound. */
  lemma NoAwayTeam(h1: TeamData, h2: TeamData, teamOf: TeamData -> Result<Team>)
    requires teamOf(h1).Ok? && teamOf(h2).Ok?
    ensures MatchOf([Participant(Some("HOME"), h1), Participant(Some("HOME"), h2)], teamOf) == Err(UnboundLocalError)
  {
    var ps := [Participant(Some("HOME"), h1), Participant(Some("HOME"), h2)];
    assert ps[..1][..0] == [];
    assert Sides(ps[..1], teamOf).Ok?;
  }

  /** A participant whose side is neither "HOME" nor "AWAY" is a ParsingError
      once the participants before it were read. */
  lemma BadSide(participants: seq<Participant>, p: Participant, teamOf: TeamData -> Result<Team>)
    requires Sides(participants, teamOf).Ok?
    requires p.side != Some("HOME") && p.side != Some("AWAY")
    ensures MatchOf(participants + [p], teamOf) == Err(ParsingError)
  {
    assert (participants + [p])[..|participants|] == participants;
  }

  /** `fetch_match` after the JSON is fetched: the loop over the participants. */
  method FetchMatch(participants: seq<Participant>) returns (r: Result<Match>)
    ensures r == MatchOf(participants, TeamOf)
  {
    var home: Option<Team> := None;
    var away: Option<Team> := None;
    for i := 0 to |participants|
      invariant Sides(participants[..i], TeamOf) == Ok(Teams(home, away))
    {
      assert participants[..i + 1][..i] == participants[..i];
      var p := participants[i];
      if p.side != Some("HOME") && p.side != Some("AWAY") {
        SidesErrSticks(participants, i + 1);
        return Err(ParsingError);
      }
      var isHome := p.side == Some("HOME");
      var team := ProcessTeam(p.team);
      if team.Err? {
        SidesErrSticks(participants, i + 1);
        return Err(team.error);
      }
      if isHome {
        home := Some(team.value);
      } else {
        away := Some(team.value);
      }
    }
    assert participants[..|participants|] == participants;
    if home.None? || away.None? {
      return Err(UnboundLocalError);
    }
    return Ok(Match(home.value, away.value, None, None, None));
  }

  lemma {:induction false} SidesErrSticks(participants: seq<Participant>, i: nat)
    requires i <= |participants| && Sides(participants[..i], TeamOf).Err?
    ensures Sides(participants, TeamOf) == Sides(participants[..i], TeamOf)
    decreases |participants| - i
  {
    if i < |participants| {
      assert participants[..i + 1][..i] == participants[..i];
      SidesErrSticks(participants, i + 1);
    } else {
      assert participants[..i] == participants;
    }
  }
}
