/**
 * The setup phase of the matches page: the list of teams the manager builds
 * before the event starts, its editing handlers, the suggestion of new teams
 * and the validation that gates the preview.
 */
module SetupRoster {
  import opened Common
  import opened PairHistory
  import opened TeamSuggestion

  // ---------------------------------------------------------------------------
  // Editing single entries
  // ---------------------------------------------------------------------------

  /** Which slot of a team a select box edits. */
  datatype Field = P1 | P2

  datatype Direction = Up | Down

  /** The player in one slot of a team. */
  function Slot(t: SetupTeam, field: Field): string {
    match field
    case P1 => t.p1
    case P2 => t.p2
  }

  /** The team with one slot replaced. */
  function Changed(t: SetupTeam, field: Field, value: string): SetupTeam
  {
    match field
    case P1 => t.(p1 := value)
    case P2 => t.(p2 := value)
  }

  /**
   * Choosing a player in one slot shows that player there and leaves the
   * other slot alone; choosing the previous player again restores the team,
   * and a later choice in the same slot overrides an earlier one.
   */
  lemma ChangedRoundTrip(t: SetupTeam, field: Field, other: Field, value: string, later: string)
    requires other != field
    ensures Slot(Changed(t, field, value), field) == value
    ensures Slot(Changed(t, field, value), other) == Slot(t, other)
    ensures Changed(Changed(t, field, value), field, Slot(t, field)) == t
    ensures Changed(Changed(t, field, value), field, later) == Changed(t, field, later)
  {
  }

  /**
   * Where `splice(index, 1)` starts: a negative index counts from the end
   * (and stops at the front), a large one stops at the end.
   */
  function SpliceStart(len: nat, index: int): nat
  {
    if index < 0 then (if len + index < 0 then 0 else len + index)
    else if index > len then len
    else index
  }

  /** The list after `splice(index, 1)`. */
  function Removed(teams: seq<SetupTeam>, index: int): seq<SetupTeam>
  {
    var start := SpliceStart(|teams|, index);
    if start < |teams| then teams[..start] + teams[start + 1..] else teams
  }

  /** Removing at a valid position drops exactly that team and shifts the later ones down. */
  lemma RemovedInRange(teams: seq<SetupTeam>, index: int)
    requires 0 <= index < |teams|
    ensures |Removed(teams, index)| == |teams| - 1
    ensures forall k :: 0 <= k < index ==> Removed(teams, index)[k] == teams[k]
    ensures forall k :: index <= k < |teams| - 1 ==> Removed(teams, index)[k] == teams[k + 1]
    ensures multiset(Removed(teams, index)) + multiset{teams[index]} == multiset(teams)
  {
    assert teams == teams[..index] + [teams[index]] + teams[index + 1..];
  }

  /** A negative index removes the team that many places from the end, or the first one when it reaches past the front. */
  lemma RemovedFromEnd(teams: seq<SetupTeam>, index: int)
    requires index < 0 && teams != []
    ensures var k := if |teams| + index < 0 then 0 else |teams| + index;
            Removed(teams, index) == Removed(teams, k)
  {
  }

  /** An index at or past the end removes nothing. */
  lemma RemovedPastEnd(teams: seq<SetupTeam>, index: int)
    requires index >= |teams|
    ensures Removed(teams, index) == teams
  {
  }

  /** The position a team moves to. */
  function Target(index: int, dir: Direction): int {
    if dir == Up then index - 1 else index + 1
  }

  /**
   * The list after moving the team at `index` one place: it trades places
   * with its neighbour, or nothing happens when there is no neighbour that way.
   */
  function Moved(teams: seq<SetupTeam>, index: int, dir: Direction): (r: seq<SetupTeam>)
    requires 0 <= index < |teams|
    ensures |r| == |teams|
  {
    var target := Target(index, dir);
    if target < 0 || target >= |teams| then teams
    else teams[index := teams[target]][target := teams[index]]
  }

  /** A move with a neighbour swaps the two and leaves every other entry where it was. */
  lemma MovedSwaps(teams: seq<SetupTeam>, index: int, dir: Direction)
    requires 0 <= index < |teams|
    requires 0 <= Target(index, dir) < |teams|
    ensures Moved(teams, index, dir)[Target(index, dir)] == teams[index]
    ensures Moved(teams, index, dir)[index] == teams[Target(index, dir)]
    ensures forall k :: 0 <= k < |teams| && k != index && k != Target(index, dir) ==> Moved(teams, index, dir)[k] == teams[k]
  {
  }

  /** Moving keeps exactly the same teams. */
  lemma MovedPermutes(teams: seq<SetupTeam>, index: int, dir: Direction)
    requires 0 <= index < |teams|
    ensures multiset(Moved(teams, index, dir)) == multiset(teams)
  {
    var target := Target(index, dir);
    if 0 <= target < |teams| {
      var u := teams[index := teams[target]];
      assert multiset(u) == multiset(teams) - multiset{teams[index]} + multiset{teams[target]};
      assert multiset(u[target := teams[index]]) == multiset(u) - multiset{teams[target]} + multiset{teams[index]};
    }
  }

  /**
   * Moving a team down and then moving it back up restores the list; the
   * first team cannot move up and the last one cannot move down.
   */
  lemma MoveDownThenUp(teams: seq<SetupTeam>, index: int)
    requires 0 <= index < |teams|
    ensures index + 1 < |teams| ==> Moved(Moved(teams, index, Down), index + 1, Up) == teams
    ensures index + 1 == |teams| ==> Moved(teams, index, Down) == teams
    ensures index == 0 ==> Moved(teams, index, Up) == teams
  {
  }

  // ---------------------------------------------------------------------------
  // Validation before the preview
  // ---------------------------------------------------------------------------

  /** The outcome of `handlePreview`'s checks, each failure naming its toast. */
  datatype Verdict =
    | TooFewTeams(required: int)
    | MissingPlayer
    | PairedWithSelf
    | PlayerInTwoTeams
    | Accepted(usedPlayers: set<string>)

  /** The two players of a team, as a set. */
  function Players(t: SetupTeam): set<string> {
    {t.p1, t.p2}
  }

  /**
   * The three checks of one pass of the loop, in their order, with `used`
   * the players of the earlier teams: the failure they report, if any.
   */
  function Fault(t: SetupTeam, used: set<string>): Option<Verdict> {
    if t.p1 == "" || t.p2 == "" then Some(MissingPlayer)
    else if t.p1 == t.p2 then Some(PairedWithSelf)
    else if t.p1 in used || t.p2 in used then Some(PlayerInTwoTeams)
    else None
  }

  /** The checks of the `for` loop from the team at `i` on, with `used` the players already seen. */
  function CheckFrom(teams: seq<SetupTeam>, i: nat, used: set<string>): Verdict
    requires i <= |teams|
    decreases |teams| - i
  {
    if i == |teams| then Accepted(used)
    else
      match Fault(teams[i], used)
      case Some(v) => v
      case None => CheckFrom(teams, i + 1, used + {teams[i].p1, teams[i].p2})
  }

  /** The whole validation: first the team count for the number of courts, then the loop. */
  function Validation(teams: seq<SetupTeam>, numCourts: int): Verdict {
    if |teams| < numCourts * 2 then TooFewTeams(numCourts * 2) else CheckFrom(teams, 0, {})
  }

  /** A team both of whose slots are filled with two different players. */
  predicate Proper(t: SetupTeam) {
    t.p1 != "" && t.p2 != "" && t.p1 != t.p2
  }

  /** No player appears in two teams of `teams[i..]`. */
  predicate SharesNoPlayer(teams: seq<SetupTeam>, i: nat) {
    forall a, b :: i <= a < b < |teams| ==> Players(teams[a]) !! Players(teams[b])
  }

  /** The players of `teams[i..]`. */
  function PlayersFrom(teams: seq<SetupTeam>, i: nat): set<string>
    requires i <= |teams|
    decreases |teams| - i
  {
    if i == |teams| then {} else Players(teams[i]) + PlayersFrom(teams, i + 1)
  }

  lemma {:induction false} PlayersFromMembers(teams: seq<SetupTeam>, i: nat, x: string)
    requires i <= |teams|
    ensures x in PlayersFrom(teams, i) <==> exists k :: i <= k < |teams| && x in Players(teams[k])
    decreases |teams| - i
  {
    if i < |teams| {
      PlayersFromMembers(teams, i + 1, x);
    }
  }

  /** No team of `teams[i..]` holds a player of `used`, and no two of them share a player. */
  predicate Unseen(teams: seq<SetupTeam>, i: nat, used: set<string>) {
    (forall k :: i <= k < |teams| ==> Players(teams[k]) !! used) && SharesNoPlayer(teams, i)
  }

  /** The team at `i` is unseen and, once its players are seen, so is the rest. */
  lemma UnseenStep(teams: seq<SetupTeam>, i: nat, used: set<string>)
    requires i < |teams|
    ensures Unseen(teams, i, used) <==>
              Players(teams[i]) !! used && Unseen(teams, i + 1, used + Players(teams[i]))
  {
    if Unseen(teams, i, used) {
      forall k | i + 1 <= k < |teams| ensures Players(teams[k]) !! used + Players(teams[i]) {
        assert Players(teams[i]) !! Players(teams[k]);
      }
    }
    if Players(teams[i]) !! used && Unseen(teams, i + 1, used + Players(teams[i])) {
      forall a, b | i <= a < b < |teams| ensures Players(teams[a]) !! Players(teams[b]) {
        if a == i {
          assert Players(teams[b]) !! used + Players(teams[i]);
        }
      }
    }
  }

  /**
   * The loop accepts from `i` on exactly when every remaining team is proper
   * and unseen, and then the set it returns holds the players seen so far and
   * all remaining ones.
   */
  lemma {:induction false} CheckFromAccepts(teams: seq<SetupTeam>, i: nat, used: set<string>)
    requires i <= |teams|
    ensures CheckFrom(teams, i, used).Accepted? <==>
              (forall k :: i <= k < |teams| ==> Proper(teams[k])) && Unseen(teams, i, used)
    ensures CheckFrom(teams, i, used).Accepted? ==> CheckFrom(teams, i, used).usedPlayers == used + PlayersFrom(teams, i)
    decreases |teams| - i
  {
    if i < |teams| {
      CheckFromAccepts(teams, i + 1, used + Players(teams[i]));
      UnseenStep(teams, i, used);
    }
  }

  /**
   * The preview goes ahead exactly when there are at least two teams per
   * court, every team has two different players, and no player is in two
   * teams; the players it then maps are those of all the teams.
   */
  lemma ValidationAccepts(teams: seq<SetupTeam>, numCourts: int)
    ensures Validation(teams, numCourts).Accepted? <==>
              |teams| >= numCourts * 2
              && (forall k :: 0 <= k < |teams| ==> Proper(teams[k]))
              && SharesNoPlayer(teams, 0)
    ensures Validation(teams, numCourts).Accepted? ==> Validation(teams, numCourts).usedPlayers == PlayersFrom(teams, 0)
  {
    CheckFromAccepts(teams, 0, {});
  }

  /** Too few teams is reported before anything else is looked at. */
  lemma ValidationCountsFirst(teams: seq<SetupTeam>, numCourts: int)
    ensures Validation(teams, numCourts).TooFewTeams? <==> |teams| < numCourts * 2
  {
    if |teams| >= numCourts * 2 {
      CheckFromNeverTooFew(teams, 0, {});
    }
  }

  lemma {:induction false} CheckFromNeverTooFew(teams: seq<SetupTeam>, i: nat, used: set<string>)
    requires i <= |teams|
    ensures !CheckFrom(teams, i, used).TooFewTeams?
    decreases |teams| - i
  {
    if i < |teams| {
      CheckFromNeverTooFew(teams, i + 1, used + {teams[i].p1, teams[i].p2});
    }
  }

  /** Every team of `teams[i..k]` is proper and shares no player with `used` or with another of them. */
  predicate PassesBetween(teams: seq<SetupTeam>, i: nat, k: nat, used: set<string>) {
    i <= k <= |teams| && (forall j :: i <= j < k ==> Proper(teams[j])) && Unseen(teams[..k], i, used)
  }

  /** A team that passes, followed by teams that pass once its players are seen, all pass. */
  lemma PassesStep(teams: seq<SetupTeam>, i: nat, k: nat, used: set<string>)
    requires i < k <= |teams|
    requires Fault(teams[i], used).None?
    requires PassesBetween(teams, i + 1, k, used + Players(teams[i]))
    ensures PassesBetween(teams, i, k, used)
    ensures used + PlayersFrom(teams[..k], i) == (used + Players(teams[i])) + PlayersFrom(teams[..k], i + 1)
  {
    assert teams[..k][i] == teams[i];
    UnseenStep(teams[..k], i, used);
  }

  /**
   * A rejection is the failure of the first failing team: every team before
   * it is proper and shares no player with the earlier ones, and the check
   * of that team, against the players seen before it, reports the rejection.
   */
  lemma {:induction false} CheckFromFirstFailure(teams: seq<SetupTeam>, i: nat, used: set<string>)
    requires i <= |teams|
    ensures !CheckFrom(teams, i, used).Accepted? ==>
              exists k :: i <= k < |teams| && PassesBetween(teams, i, k, used)
                && Fault(teams[k], used + PlayersFrom(teams[..k], i)) == Some(CheckFrom(teams, i, used))
    decreases |teams| - i
  {
    if i < |teams| && !CheckFrom(teams, i, used).Accepted? {
      if Fault(teams[i], used).Some? {
        assert PlayersFrom(teams[..i], i) == {};
        assert PassesBetween(teams, i, i, used);
      } else {
        var used' := used + Players(teams[i]);
        CheckFromFirstFailure(teams, i + 1, used');
        var k :| i + 1 <= k < |teams| && PassesBetween(teams, i + 1, k, used')
                 && Fault(teams[k], used' + PlayersFrom(teams[..k], i + 1)) == Some(CheckFrom(teams, i + 1, used'));
        PassesStep(teams, i, k, used);
      }
    }
  }

  /** A rejection names a real defect: an empty slot, a self-pairing, or a player met twice. */
  lemma {:induction false} CheckFromReasons(teams: seq<SetupTeam>, i: nat, used: set<string>)
    requires i <= |teams|
    ensures CheckFrom(teams, i, used).MissingPlayer? ==> exists k :: i <= k < |teams| && (teams[k].p1 == "" || teams[k].p2 == "")
    ensures CheckFrom(teams, i, used).PairedWithSelf? ==> exists k :: i <= k < |teams| && teams[k].p1 == teams[k].p2 != ""
    ensures CheckFrom(teams, i, used).PlayerInTwoTeams? ==> !Unseen(teams, i, used)
    decreases |teams| - i
  {
    if i < |teams| {
      CheckFromReasons(teams, i + 1, used + Players(teams[i]));
      UnseenStep(teams, i, used);
    }
  }

  // ---------------------------------------------------------------------------
  // The roster itself
  // ---------------------------------------------------------------------------

  /** The `selectedTeams` state of the matches page and its setup handlers. */
  class Roster {
    var teams: seq<SetupTeam>

    constructor()
      ensures teams == []
    {
      teams := [];
    }

    /** `handleAddTeam`: a new team with both slots empty goes at the end. */
    method AddTeam()
      modifies this
      ensures teams == old(teams) + [SetupTeam("", "")]
    {
      teams := teams + [SetupTeam("", "")];
    }

    /** `handleTeamChange`: one slot of one team takes the chosen player. */
    method ChangeTeam(index: int, field: Field, value: string)
      requires 0 <= index < |teams|
      modifies this
      ensures teams == old(teams)[index := Changed(old(teams)[index], field, value)]
    {
      var newTeams := teams;
      newTeams := newTeams[index := Changed(newTeams[index], field, value)];
      teams := newTeams;
    }

    /** `handleRemoveTeam`: `splice(index, 1)` on a copy of the list. */
    method RemoveTeam(index: int)
      modifies this
      ensures teams == Removed(old(teams), index)
    {
      var newTeams := teams;
      var start := if index < 0 then (if |newTeams| + index < 0 then 0 else |newTeams| + index)
                   else if index > |newTeams| then |newTeams| else index;
      if start < |newTeams| {
        newTeams := newTeams[..start] + newTeams[start + 1..];
      }
      teams := newTeams;
    }

    /**
     * `handleMoveTeam`: unless the neighbour's position is outside the list,
     * the team is spliced out and spliced back in at that position.
     */
    method MoveTeam(index: int, dir: Direction)
      requires 0 <= index < |teams|
      modifies this
      ensures teams == Moved(old(teams), index, dir)
    {
      var newIndex := if dir == Up then index - 1 else index + 1;
      if newIndex < 0 || newIndex >= |teams| {
        return;
      }
      var newTeams := teams;
      var movedTeam := newTeams[index];
      newTeams := newTeams[..index] + newTeams[index + 1..];
      newTeams := newTeams[..newIndex] + [movedTeam] + newTeams[newIndex..];
      assert forall k :: 0 <= k < |teams| ==> newTeams[k] == Moved(old(teams), index, dir)[k];
      teams := newTeams;
    }

    /**
     * `handleGenerateTeams`: the suggested teams for the checked-in players
     * that the list does not hold yet are appended after the existing teams.
     * `order1` and `order2` are the orders the random shuffles produced.
     */
    method GenerateTeams(kind: Kind, checkedIn: seq<Profile>, events: seq<PastEvent>,
                         order1: seq<Profile>, order2: seq<Profile>, times: map<string, int>, now: int)
      requires IsShuffle(Available(checkedIn, AssignedIds(teams)), kind, order1, order2)
      modifies this
      ensures teams == old(teams) + Suggestion(old(teams), checkedIn, kind, PairFrequency(events), order1, order2, times, now)
    {
      var assignedIds := CollectAssigned(teams);
      var available := Available(checkedIn, assignedIds);
      assert IsShuffle(available, kind, order1, order2);
      var pairFrequency := BuildPairFrequency(events);
      var newTeams: seq<SetupTeam>;
      if kind == MF {
        var pool1, pool2;
        newTeams, pool1, pool2 := PairMixed(pairFrequency, order1, order2);
      } else {
        var candidates;
        newTeams, candidates := PairSameSex(pairFrequency, order1);
      }
      var sortedNewTeams := SortByCheckIn(times, now, newTeams);
      teams := teams + sortedNewTeams;
    }

    /** The validation part of `handlePreview`; the list is left as it is. */
    method Preview(numCourts: int) returns (verdict: Verdict)
      ensures verdict == Validation(teams, numCourts)
    {
      var requiredTeams := numCourts * 2;
      if |teams| < requiredTeams {
        return TooFewTeams(requiredTeams);
      }
      var usedPlayers: set<string> := {};
      var i := 0;
      while i < |teams|
        invariant 0 <= i <= |teams|
        invariant CheckFrom(teams, i, usedPlayers) == CheckFrom(teams, 0, {})
        decreases |teams| - i
      {
        var team := teams[i];
        if team.p1 == "" || team.p2 == "" {
          return MissingPlayer;
        }
        if team.p1 == team.p2 {
          return PairedWithSelf;
        }
        if team.p1 in usedPlayers || team.p2 in usedPlayers {
          return PlayerInTwoTeams;
        }
        usedPlayers := usedPlayers + {team.p1, team.p2};
        i := i + 1;
      }
      return Accepted(usedPlayers);
    }
  }
}
