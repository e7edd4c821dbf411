/** Players, teams and matches of the ratings scrapers. A team's players are
    its starters followed by its substitutions; its score is the sum of the
    goals of those who scored. */
module Ratings {
  import opened Wrappers
  import opened Text
  import opened Calendar

  datatype Country = Country(alpha2: String, alpha3: String, name: String, slug: Option<String>)

  /** A player's country: the full record one source gives, or the bare
      name the other gives. */
  datatype Origin = Codes(country: Country) | Named(name: String)

  /** `birthTimestamp` is the POSIX timestamp the date of birth is read from. */
  datatype Player = Player(
    name: String,
    country: Origin,
    position: Option<String>,
    jerseyNumber: int,
    height: Option<int>,
    birthTimestamp: Option<int>,
    rating: Option<real>,
    minutesPlayed: Option<int>,
    goals: Option<int>,
    assists: Option<int>,
    fouls: Option<int>)
  {
    predicate IsRated() { rating.Some? }

    predicate IsGoalScorer() { goals.Some? }
  }

  /** The manager one source attaches to a team. */
  datatype Manager = Manager(name: String, country: String)

  datatype Team = Team(name: String, starters: seq<Player>, substitutions: seq<Player>, manager: Option<Manager>)
  {
    /** The starters, then the substitutions, each in their own order. */
    function Players(): (r: seq<Player>)
      ensures |r| == |starters| + |substitutions|
      ensures forall i :: 0 <= i < |starters| ==> r[i] == starters[i]
      ensures forall j :: 0 <= j < |substitutions| ==> r[|starters| + j] == substitutions[j]
    {
      starters + substitutions
    }

    function GoalsScored(): int {
      GoalsOf(Players())
    }
  }

  datatype Match = Match(home: Team, away: Team, stadium: Option<String>, attendance: Option<int>, date: Option<Date>)
  {
    /** "<home goals> : <away goals>" */
    function Score(): (r: String)
      ensures |r| >= 5
    {
      IntToString(home.GoalsScored()) + " : " + IntToString(away.GoalsScored())
    }
  }

  /** The goals of the players who have a goal count. */
  function GoalsOf(players: seq<Player>): int {
    if |players| == 0 then 0
    else
      var last := players[|players| - 1];
      GoalsOf(players[..|players| - 1]) + (if last.IsGoalScorer() then last.goals.value else 0)
  }

  /** The items kept by `keep`, in order. */
  function Filter<T>(items: seq<T>, keep: T -> bool): (r: seq<T>)
    ensures |r| <= |items|
  {
    if |items| == 0 then []
    else
      var last := items[|items| - 1];
      Filter(items[..|items| - 1], keep) + (if keep(last) then [last] else [])
  }

  /** `f` of each item, in order. */
  function Map<T, U>(items: seq<T>, f: T -> U): (r: seq<U>)
    ensures |r| == |items|
    ensures forall i :: 0 <= i < |items| ==> r[i] == f(items[i])
  {
    if |items| == 0 then []
    else Map(items[..|items| - 1], f) + [f(items[|items| - 1])]
  }

  lemma MapSnoc<T, U>(items: seq<T>, x: T, f: T -> U)
    ensures Map(items + [x], f) == Map(items, f) + [f(x)]
  {
    assert (items + [x])[..|items|] == items;
  }

  lemma FilterSnoc<T>(items: seq<T>, x: T, keep: T -> bool)
    ensures Filter(items + [x], keep) == Filter(items, keep) + (if keep(x) then [x] else [])
  {
    assert (items + [x])[..|items|] == items;
  }

  /** The filter keeps exactly the items `keep` holds of. */
  lemma {:induction false} FilterMember<T>(items: seq<T>, keep: T -> bool, x: T)
    ensures x in Filter(items, keep) <==> x in items && keep(x)
    decreases |items|
  {
    if |items| > 0 {
      var front := items[..|items| - 1];
      FilterMember(front, keep, x);
      assert items == front + [items[|items| - 1]];
    }
  }

  /** Every item is kept by exactly one of `keep` and its complement `drop`. */
  lemma {:induction false} FilterSplits<T>(items: seq<T>, keep: T -> bool, drop: T -> bool)
    requires forall x :: drop(x) == !keep(x)
    ensures |Filter(items, keep)| + |Filter(items, drop)| == |items|
    decreases |items|
  {
    if |items| > 0 {
      FilterSplits(items[..|items| - 1], keep, drop);
    }
  }

  lemma {:induction false} GoalsOfAppend(a: seq<Player>, b: seq<Player>)
    ensures GoalsOf(a + b) == GoalsOf(a) + GoalsOf(b)
    decreases |b|
  {
    if |b| > 0 {
      var front := b[..|b| - 1];
      assert (a + b)[..|a + b| - 1] == a + front;
      GoalsOfAppend(a, front);
    } else {
      assert a + b == a;
    }
  }

  /** A team's goals are its starters' goals plus its substitutes' goals. */
  lemma GoalsScoredSplit(t: Team)
    ensures t.GoalsScored() == GoalsOf(t.starters) + GoalsOf(t.substitutions)
  {
    GoalsOfAppend(t.starters, t.substitutions);
  }

  /** Players without a goal count add nothing. */
  lemma {:induction false} GoalsOfScorers(players: seq<Player>)
    ensures GoalsOf(players) == GoalsOf(Filter(players, (p: Player) => p.IsGoalScorer()))
    decreases |players|
  {
    if |players| > 0 {
      var front, last := players[..|players| - 1], players[|players| - 1];
      var keep := (p: Player) => p.IsGoalScorer();
      GoalsOfScorers(front);
      GoalsOfAppend(Filter(front, keep), if keep(last) then [last] else []);
      if keep(last) {
        assert GoalsOf([last]) == last.goals.value by { assert [last][..0] == []; }
      }
    }
  }

  /** With no negative goal counts the score sides are natural numbers. */
  lemma {:induction false} GoalsOfNonNegative(players: seq<Player>)
    requires forall p :: p in players && p.IsGoalScorer() ==> p.goals.value >= 0
    ensures GoalsOf(players) >= 0
    decreases |players|
  {
    if |players| > 0 {
      GoalsOfNonNegative(players[..|players| - 1]);
    }
  }

  /** Reads a score back: the two integers around the first " : ". */
  function ReadScore(s: String): Option<(int, int)> {
    var (left, sep, right) := Partition(s, " : ");
    if sep == "" then None
    else match (ParseIntLiteral(left), ParseIntLiteral(right))
      case (Some(h), Some(a)) => Some((h, a))
      case _ => None
  }

  /** The score reads back as the two teams' goals. */
  lemma ScoreRoundTrip(m: Match)
    requires forall p :: p in m.home.Players() && p.IsGoalScorer() ==> p.goals.value >= 0
    requires forall p :: p in m.away.Players() && p.IsGoalScorer() ==> p.goals.value >= 0
    ensures ReadScore(m.Score()) == Some((m.home.GoalsScored(), m.away.GoalsScored()))
  {
    GoalsOfNonNegative(m.home.Players());
    GoalsOfNonNegative(m.away.Players());
    var h: nat, a: nat := m.home.GoalsScored(), m.away.GoalsScored();
    var hs, aw := NatToString(h), NatToString(a);
    assert Partition(hs + " : " + aw, " : ") == (hs, " : ", aw) by { PartitionAfterDigits(hs, aw); }
    assert ParseIntLiteral(hs) == Some(h) by { NatToStringValue(h); }
    assert ParseIntLiteral(aw) == Some(a) by { NatToStringValue(a); }
  }

  /** A text of digits, " : ", then anything splits at the " : ". */
  lemma PartitionAfterDigits(digits: String, rest: String)
    requires AllDigits(digits)
    ensures Partition(digits + " : " + rest, " : ") == (digits, " : ", rest)
  {
    var s := digits + " : " + rest;
    assert OccursAt(s, " : ", |digits|) by { assert s[|digits|..|digits| + 3] == " : "; }
    forall j: nat | j < |digits| ensures !OccursAt(s, " : ", j) {
      assert s[j..j + 3][0] == digits[j];
    }
    assert Find(s, " : ") == Some(|digits|);
    assert s[..|digits|] == digits;
    assert s[|digits| + 3..] == rest;
  }
}
