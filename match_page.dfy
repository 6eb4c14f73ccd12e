/**
 * The matches page outside its setup list: which phase it shows, which
 * players are busy on a court or in the queue, and the guards around
 * recording and editing a score.
 */
module MatchPage {
  import opened Common
  import opened PairHistory

  // ---------------------------------------------------------------------------
  // Phase
  // ---------------------------------------------------------------------------

  datatype Phase = Setup | Preview | Active | Complete

  /**
   * What the page knows of the event: nothing while it loads, otherwise its
   * status and whether a serialised match state is stored.
   */
  datatype EventView = Loading | Loaded(status: EventStatus, hasMatchesState: bool)

  /** The phase the page's effect selects whenever the event's status or match state changes. */
  function SyncedPhase(event: EventView): Phase
  {
    if event.Loaded? && (event.status == Completed || event.status == Canceled) then Complete
    else if event.Loaded? && event.hasMatchesState then Active
    else Setup
  }

  /**
   * The effect never lands on the preview phase (only a manual step reaches
   * it), and a finished or cancelled event is shown as complete even when a
   * match state is still stored.
   */
  lemma SyncedPhaseNeverPreview(event: EventView)
    ensures SyncedPhase(event) != Preview
    ensures event.Loaded? && event.status in {Completed, Canceled} && event.hasMatchesState
            ==> SyncedPhase(event) == Complete
  {
  }

  // ---------------------------------------------------------------------------
  // Players in use
  // ---------------------------------------------------------------------------

  /** A team as the queue manager reports it: the numeric ids of its two players. */
  datatype Team = Team(player1: int, player2: int)

  /** The live scores of a match, when any were entered. */
  datatype Scores = Scores(team1: int, team2: int)

  datatype Match = Match(team1: Team, team2: Team, currentScores: Option<Scores>)

  datatype Court = Court(currentMatch: Option<Match>)

  /** The profile id a numeric id maps back to, as a set: empty unless the lookup is truthy. */
  function Named(rm: map<int, string>, id: int): set<string> {
    if Truthy(Lookup(rm, id)) then {rm[id]} else {}
  }

  function TeamNames(rm: map<int, string>, t: Team): set<string> {
    Named(rm, t.player1) + Named(rm, t.player2)
  }

  function CourtNames(rm: map<int, string>, c: Court): set<string> {
    match c.currentMatch
    case None => {}
    case Some(m) => TeamNames(rm, m.team1) + TeamNames(rm, m.team2)
  }

  /** The profiles busy on the courts, built court by court. */
  function OnCourts(rm: map<int, string>, courts: seq<Court>): set<string>
    decreases |courts|
  {
    if courts == [] then {}
    else OnCourts(rm, courts[..|courts| - 1]) + CourtNames(rm, courts[|courts| - 1])
  }

  /** The profiles waiting in the queue, built team by team. */
  function InQueue(rm: map<int, string>, queue: seq<Team>): set<string>
    decreases |queue|
  {
    if queue == [] then {}
    else InQueue(rm, queue[..|queue| - 1]) + TeamNames(rm, queue[|queue| - 1])
  }

  /** `playersInUse`: empty outside the active phase, otherwise everyone on a court or in the queue. */
  function InUse(phase: Phase, entries: seq<(string, int)>, courts: seq<Court>, queue: seq<Team>): set<string> {
    if phase != Active then {} else OnCourts(ReverseMap(entries), courts) + InQueue(ReverseMap(entries), queue)
  }

  /**
   * No player is reported busy unless the event has loaded, is still live and
   * has a stored match state: while loading, in setup and once the event is
   * over, every player is free.
   */
  lemma NoPlayersInUseUnlessLive(event: EventView, entries: seq<(string, int)>, courts: seq<Court>,
                                 queue: seq<Team>, x: string)
    requires x in InUse(SyncedPhase(event), entries, courts, queue)
    ensures event.Loaded? && event.hasMatchesState
    ensures event.status != Completed && event.status != Canceled
  {
  }

  /** The numeric id plays in the current match of some court. */
  predicate PlaysOnCourt(courts: seq<Court>, id: int) {
    exists k :: 0 <= k < |courts| && courts[k].currentMatch.Some?
      && id in {courts[k].currentMatch.value.team1.player1, courts[k].currentMatch.value.team1.player2,
                courts[k].currentMatch.value.team2.player1, courts[k].currentMatch.value.team2.player2}
  }

  /** The numeric id belongs to some queued team. */
  predicate Queued(queue: seq<Team>, id: int) {
    exists k :: 0 <= k < |queue| && (queue[k].player1 == id || queue[k].player2 == id)
  }

  /** The reverse map names the non-empty profile `x` for the numeric id. */
  predicate NamedFor(rm: map<int, string>, x: string, id: int) {
    x != "" && id in rm && rm[id] == x
  }

  lemma TeamNamesMembers(rm: map<int, string>, t: Team, x: string)
    ensures x in TeamNames(rm, t) <==> NamedFor(rm, x, t.player1) || NamedFor(rm, x, t.player2)
  {
  }

  lemma {:induction false} OnCourtsMembers(rm: map<int, string>, courts: seq<Court>, x: string)
    ensures x in OnCourts(rm, courts) <==> exists id :: NamedFor(rm, x, id) && PlaysOnCourt(courts, id)
    decreases |courts|
  {
    if courts != [] {
      var init, c := courts[..|courts| - 1], courts[|courts| - 1];
      OnCourtsMembers(rm, init, x);
      if x in OnCourts(rm, courts) {
        if x in OnCourts(rm, init) {
          var id, k :| NamedFor(rm, x, id) && 0 <= k < |init| && init[k].currentMatch.Some?
            && id in {init[k].currentMatch.value.team1.player1, init[k].currentMatch.value.team1.player2,
                      init[k].currentMatch.value.team2.player1, init[k].currentMatch.value.team2.player2};
          assert courts[k] == init[k];
        } else {
          var m := c.currentMatch.value;
          TeamNamesMembers(rm, m.team1, x);
          TeamNamesMembers(rm, m.team2, x);
          var id := if NamedFor(rm, x, m.team1.player1) then m.team1.player1
                    else if NamedFor(rm, x, m.team1.player2) then m.team1.player2
                    else if NamedFor(rm, x, m.team2.player1) then m.team2.player1
                    else m.team2.player2;
          assert NamedFor(rm, x, id) && PlaysOnCourt(courts, id) by {
            assert courts[|courts| - 1] == c;
          }
        }
      }
      if exists id :: NamedFor(rm, x, id) && PlaysOnCourt(courts, id) {
        var id, k :| NamedFor(rm, x, id) && 0 <= k < |courts| && courts[k].currentMatch.Some?
          && id in {courts[k].currentMatch.value.team1.player1, courts[k].currentMatch.value.team1.player2,
                    courts[k].currentMatch.value.team2.player1, courts[k].currentMatch.value.team2.player2};
        if k < |init| {
          assert init[k] == courts[k];
          assert PlaysOnCourt(init, id);
        } else {
          TeamNamesMembers(rm, c.currentMatch.value.team1, x);
          TeamNamesMembers(rm, c.currentMatch.value.team2, x);
        }
      }
    }
  }

  lemma {:induction false} InQueueMembers(rm: map<int, string>, queue: seq<Team>, x: string)
    ensures x in InQueue(rm, queue) <==> exists id :: NamedFor(rm, x, id) && Queued(queue, id)
    decreases |queue|
  {
    if queue != [] {
      var init, t := queue[..|queue| - 1], queue[|queue| - 1];
      InQueueMembers(rm, init, x);
      TeamNamesMembers(rm, t, x);
      if x in InQueue(rm, queue) {
        if x in InQueue(rm, init) {
          var id, k :| NamedFor(rm, x, id) && 0 <= k < |init| && (init[k].player1 == id || init[k].player2 == id);
          assert queue[k] == init[k];
        } else {
          var id := if NamedFor(rm, x, t.player1) then t.player1 else t.player2;
          assert queue[|queue| - 1] == t;
          assert NamedFor(rm, x, id) && Queued(queue, id);
        }
      }
      if exists id :: NamedFor(rm, x, id) && Queued(queue, id) {
        var id, k :| NamedFor(rm, x, id) && 0 <= k < |queue| && (queue[k].player1 == id || queue[k].player2 == id);
        if k < |init| {
          assert init[k] == queue[k];
        }
      }
    }
  }

  /**
   * In the active phase a profile is in use exactly when it is non-empty and
   * the reverse map names it for a player on a court's current match or in a
   * queued team; in every other phase nobody is.
   */
  lemma InUseMembers(phase: Phase, entries: seq<(string, int)>, courts: seq<Court>, queue: seq<Team>, x: string)
    ensures x in InUse(phase, entries, courts, queue) <==>
              phase == Active && exists id :: NamedFor(ReverseMap(entries), x, id) && (PlaysOnCourt(courts, id) || Queued(queue, id))
  {
    var rm := ReverseMap(entries);
    OnCourtsMembers(rm, courts, x);
    InQueueMembers(rm, queue, x);
  }

  /** Each profile in use came from an entry of the player map. */
  lemma InUseFromEntries(phase: Phase, entries: seq<(string, int)>, courts: seq<Court>, queue: seq<Team>, x: string)
    requires x in InUse(phase, entries, courts, queue)
    ensures exists j :: 0 <= j < |entries| && entries[j].0 == x
  {
    InUseMembers(phase, entries, courts, queue, x);
    var id :| NamedFor(ReverseMap(entries), x, id) && (PlaysOnCourt(courts, id) || Queued(queue, id));
    ReverseMapNames(entries, id);
  }

  lemma {:induction false} ReverseMapNames(entries: seq<(string, int)>, id: int)
    requires id in ReverseMap(entries)
    ensures exists j :: 0 <= j < |entries| && entries[j] == (ReverseMap(entries)[id], id)
    decreases |entries|
  {
    var init, last := entries[..|entries| - 1], entries[|entries| - 1];
    if id != last.1 {
      ReverseMapNames(init, id);
      var j :| 0 <= j < |init| && init[j] == (ReverseMap(init)[id], id);
      assert entries[j] == init[j];
    } else {
      assert entries[|entries| - 1] == (ReverseMap(entries)[id], id);
    }
  }

  /** The `useMemo` that computes `playersInUse`, with its two `forEach` loops. */
  method PlayersInUse(phase: Phase, entries: seq<(string, int)>, courts: seq<Court>, queue: seq<Team>)
    returns (usedIds: set<string>)
    ensures usedIds == InUse(phase, entries, courts, queue)
  {
    if phase != Active {
      return {};
    }
    usedIds := {};
    var reverseMap := BuildReverseMap(entries);
    for i := 0 to |courts|
      invariant usedIds == OnCourts(reverseMap, courts[..i])
    {
      assert courts[..i + 1][..i] == courts[..i];
      if courts[i].currentMatch.Some? {
        var m := courts[i].currentMatch.value;
        usedIds := AddIfMapped(usedIds, reverseMap, m.team1.player1);
        usedIds := AddIfMapped(usedIds, reverseMap, m.team1.player2);
        usedIds := AddIfMapped(usedIds, reverseMap, m.team2.player1);
        usedIds := AddIfMapped(usedIds, reverseMap, m.team2.player2);
      }
    }
    assert courts[..|courts|] == courts;
    ghost var onCourts := usedIds;
    for j := 0 to |queue|
      invariant usedIds == onCourts + InQueue(reverseMap, queue[..j])
    {
      assert queue[..j + 1][..j] == queue[..j];
      usedIds := AddIfMapped(usedIds, reverseMap, queue[j].player1);
      usedIds := AddIfMapped(usedIds, reverseMap, queue[j].player2);
    }
    assert queue[..|queue|] == queue;
  }

  /** `const pId = reverseMap.get(id); if (pId) usedIds.add(pId)`. */
  method AddIfMapped(usedIds: set<string>, reverseMap: map<int, string>, id: int) returns (r: set<string>)
    ensures r == usedIds + Named(reverseMap, id)
  {
    var pId := Lookup(reverseMap, id);
    r := usedIds;
    if Truthy(pId) {
      r := r + {pId.value};
    }
  }

  // ---------------------------------------------------------------------------
  // Recording a score
  // ---------------------------------------------------------------------------

  /** The confirmation dialog that `handleSubmitScore` opens. */
  datatype ConfirmDialog = ConfirmDialog(courtId: int, m: Match, s1: int, s2: int)

  /** `currentScores?.team1 || 0` and the same for team 2: missing scores read as 0. */
  function LiveScores(m: Match): (int, int) {
    match m.currentScores
    case None => (0, 0)
    case Some(s) => (s.team1, s.team2)
  }

  /** `handleSubmitScore`: equal scores are refused and no dialog opens. */
  function SubmitScore(courtId: int, m: Match): Option<ConfirmDialog>
  {
    var (s1, s2) := LiveScores(m);
    if s1 == s2 then None else Some(ConfirmDialog(courtId, m, s1, s2))
  }

  /**
   * The score map `handleConfirmScore` hands to `recordResult`: each team
   * under its score. An object literal with two equal keys keeps only the
   * last, so on a tie only team 2 would remain.
   */
  function ScoreMap(d: ConfirmDialog): (scores: map<int, Team>)
  {
    map[d.s1 := d.m.team1][d.s2 := d.m.team2]
  }

  /** With distinct scores the map holds both teams, each under its own score. */
  lemma ScoreMapDistinct(d: ConfirmDialog)
    requires d.s1 != d.s2
    ensures ScoreMap(d).Keys == {d.s1, d.s2}
    ensures ScoreMap(d)[d.s1] == d.m.team1 && ScoreMap(d)[d.s2] == d.m.team2
  {
  }

  /** On a tie the map collapses to a single entry for team 2. */
  lemma ScoreMapTie(d: ConfirmDialog)
    requires d.s1 == d.s2
    ensures ScoreMap(d) == map[d.s2 := d.m.team2]
  {
  }

  /**
   * Every dialog that `handleSubmitScore` opens yields a score map with both
   * teams of the match, under the live scores.
   */
  lemma ConfirmedScoresKeepBothTeams(courtId: int, m: Match)
    requires SubmitScore(courtId, m).Some?
    ensures |ScoreMap(SubmitScore(courtId, m).value).Keys| == 2
    ensures ScoreMap(SubmitScore(courtId, m).value)[LiveScores(m).0] == m.team1
    ensures ScoreMap(SubmitScore(courtId, m).value)[LiveScores(m).1] == m.team2
  {
    var d := SubmitScore(courtId, m).value;
    ScoreMapDistinct(d);
  }

  /**
   * The guard is exactly what keeps the score map whole: a dialog opens if and
   * only if the map built from the live scores would hold both teams.
   */
  lemma SubmitGuardsScoreMap(courtId: int, m: Match)
    ensures SubmitScore(courtId, m).Some?
            <==> |ScoreMap(ConfirmDialog(courtId, m, LiveScores(m).0, LiveScores(m).1)).Keys| == 2
  {
    var d := ConfirmDialog(courtId, m, LiveScores(m).0, LiveScores(m).1);
    if d.s1 == d.s2 {
      ScoreMapTie(d);
      assert ScoreMap(d).Keys == {d.s2};
    } else {
      ScoreMapDistinct(d);
    }
  }

  // ---------------------------------------------------------------------------
  // Editing a recorded result
  // ---------------------------------------------------------------------------

  datatype Winner = Team1Wins | Team2Wins | Tie

  /** The "New Winner" line of the edit dialog. */
  function EditWinner(score1: int, score2: int): Winner
  {
    if score1 > score2 then Team1Wins else if score2 > score1 then Team2Wins else Tie
  }

  /** Swapping the two scores swaps the winner. */
  lemma EditWinnerSwap(score1: int, score2: int)
    ensures EditWinner(score2, score1) == match EditWinner(score1, score2)
                                          case Team1Wins => Team2Wins
                                          case Team2Wins => Team1Wins
                                          case Tie => Tie
  {
  }

  /** A team with its new score, as handed to `editMatchResult`. */
  datatype Score = Score(team: Team, score: int)

  /**
   * The save button: disabled while saving or on a tie; otherwise both teams
   * are sent with their new scores, team 1 first.
   */
  function SaveEdit(isSaving: bool, t1: Team, t2: Team, score1: int, score2: int): Option<seq<Score>>
  {
    if isSaving || score1 == score2 then None else Some([Score(t1, score1), Score(t2, score2)])
  }

  /** A saved edit always has a winner, and it is the team sent with the larger score. */
  lemma SavedEditHasWinner(t1: Team, t2: Team, score1: int, score2: int)
    requires SaveEdit(false, t1, t2, score1, score2).Some?
    ensures EditWinner(score1, score2) != Tie
    ensures var scores := SaveEdit(false, t1, t2, score1, score2).value;
            (EditWinner(score1, score2) == Team1Wins ==> scores[0].score > scores[1].score)
            && (EditWinner(score1, score2) == Team2Wins ==> scores[1].score > scores[0].score)
  {
  }

  /**
   * The save button and the "New Winner" line agree: saving is possible
   * exactly when no save is running and the line names a winner.
   */
  lemma SaveEnabledIffWinnerShown(isSaving: bool, t1: Team, t2: Team, score1: int, score2: int)
    ensures SaveEdit(isSaving, t1, t2, score1, score2).Some? <==> !isSaving && EditWinner(score1, score2) != Tie
  {
  }
}
