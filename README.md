# vlzm-app: events, check-ins and match setup, modelled in Dafny

vlzm-app is a web app for a volleyball club. Managers create events. Players
check in to an event. On the matches page, a manager builds a list of doubles
teams, has the app suggest teams that avoid past pairings, validates the list
and then runs a court queue where match results are recorded. This project
models the logic of those pages and of the hook that persists the match
state, and proves properties about it.

Modules, one per file, following the source:

- `Common` (common.dfy): `Option`, `Result`, the event status, JavaScript
  truthiness of nullable strings, and `Array.prototype.filter` with its facts.
- `MatchManagement` (match_management.dfy): the match-management hook. It
  covers the numeric player ids handed to profiles and the mapping loop of
  `ensurePlayerMapping`. It also has a class `MatchManagementHook` whose
  methods load, record, update and reset the persisted state. A failed
  `recordResult` rolls back to its snapshot.
- `PairHistory` (pair_history.dfy): the reverse id map, the order-independent
  pair key, and the count of how often two players were teammates in past
  events.
- `TeamSuggestion` (team_suggestion.dfy): the team generator. It pairs
  same-sex or mixed, always giving the head of the pool its least-paired
  partner, then sorts the new teams by check-in time.
- `SetupRoster` (setup_roster.dfy): the class `Roster`, which holds the
  setup list of teams and its handlers (add, change, remove, move, generate,
  preview validation), plus the pure functions that specify them.
- `MatchPage` (match_page.dfy): the phase shown, the players in use on
  courts or in the queue, and the guards on submitting and editing scores.
- `CheckIn` (check_in.dfy): check-in permissions, the manager's list with a
  virtual row for the manager, the players that can be added, the toggle
  buttons and the player's own status card.
- `EventList` (events_page.dfy), `PlayerList` (players_page.dfy) and
  `Pagination` (pagination.dfy): the events grid, the players list with its
  surname search, and the pager both lists share.

Randomness, the clock and the database are parameters:

- The random shuffles of the team generator are the orders `order1` and
  `order2`, constrained to be permutations of the pools.
- The current time is a parameter `now`.
- Whatever the database or the queue manager answers is a parameter of the
  operation that asks (`step`, `saveFailure`, the decoded queue blob).

## Model

| member | source | states |
|---|---|---|
| MatchManagement.NextPlayerId | src/hooks/use-match-management.ts:98-101 | 1 for an empty map; otherwise one more than an id in use, and larger than every id in use |
| MatchManagement.ExtendMapping | src/hooks/use-match-management.ts:103-113 | the loop computes the map of `Assign` from the next id; `changed` holds exactly when some id was handed out, and otherwise the map is unchanged |
| MatchManagement.AssignKeepsMapped | src/hooks/use-match-management.ts:108-112 | a profile whose entry is truthy keeps its id |
| MatchManagement.AssignGivesConsecutiveIds | src/hooks/use-match-management.ts:103-113 | the unmapped profiles, each at its first occurrence and in order, get the consecutive ids next, next+1, …; the key set grows by exactly them; other entries are unchanged |
| MatchManagement.EnsuredMapsAll | src/hooks/use-match-management.ts:103-119 | after `ensurePlayerMapping` every profile passed in is mapped, and all ids stay positive |
| MatchManagement.EnsuredStaysInjective | src/hooks/use-match-management.ts:103-119 | new ids collide neither with each other nor with existing ids, so no two profiles share an id |
| MatchManagement.EnsuredIdempotent | src/hooks/use-match-management.ts:103-119 | a second call with the same profiles changes nothing and hands out no id |
| MatchManagement.MatchManagementHook.constructor | src/hooks/use-match-management.ts:52-56 | empty player map, a one-court manager, version 0, no load error |
| MatchManagement.MatchManagementHook.LoadFromEvent | src/hooks/use-match-management.ts:59-85 | no stored state leaves everything alone; a stored map replaces the player map; a parse or load failure sets the load error; a successful load rebuilds the manager when the court count differs, loads the state, bumps the version and clears the error; after a parsed blob the manager has at least one court, and exactly the stored number when that is positive |
| MatchManagement.MatchManagementHook.InitializeManager | src/hooks/use-match-management.ts:87-92 | a new manager with the given courts, version bumped, error cleared, player map kept |
| MatchManagement.MatchManagementHook.EnsurePlayerMapping | src/hooks/use-match-management.ts:103-119 | returns and stores `Ensured(old map, profiles)`; the manager is untouched |
| MatchManagement.MatchManagementHook.RecordResult | src/hooks/use-match-management.ts:153-181 | refused on a completed event; a failing snapshot, taken before the `try`, is rethrown with nothing changed; if the manager's step or the save fails the snapshot is loaded back: when that load succeeds the manager holds what it yields, the version is bumped once more and the original error is rethrown; when the load throws its error escapes instead, the manager keeps what the load left and the rollback bump is skipped; a load that gives back the old state loses nothing; on success the new state is kept and the version bumped once |
| MatchManagement.MatchManagementHook.UpdateScore | src/hooks/use-match-management.ts:183-200 | refused on a completed event; a successful step is kept and bumps the version once, even when saving fails; a throwing step is not rolled back: the manager keeps what it left (`partial`) and the version is unchanged; every error is only reported |
| MatchManagement.MatchManagementHook.ResetQueue | src/hooks/use-match-management.ts:202-217 | refused on a completed event; a failed save changes nothing; otherwise a one-court manager and an empty player map |
| PairHistory.ReverseMapDomain | src/pages/event-matches.tsx:268-271 | the reverse map holds exactly the numeric ids found among the player-map entries |
| PairHistory.ReverseMapLastWins | src/pages/event-matches.tsx:268-271 | an id maps back to the profile of the last entry carrying it |
| PairHistory.ReverseMapInverts | src/pages/event-matches.tsx:122-125 | over an injective player map the reverse map is its inverse |
| PairHistory.BuildReverseMap | src/pages/event-matches.tsx:122-125 | the `forEach` builds `ReverseMap(entries)` |
| PairHistory.LexTotal | src/pages/event-matches.tsx:283 | the default string order of `sort` compares any two strings |
| PairHistory.LexAntisymmetric | src/pages/event-matches.tsx:283 | two strings each at most the other are equal |
| PairHistory.PairKeySymmetric | src/pages/event-matches.tsx:283 | the key does not depend on the order of the two players |
| PairHistory.PairKeyIdentifiesPair | src/pages/event-matches.tsx:283 | for ids without a '\|', equal keys mean the same unordered pair |
| PairHistory.CountPairEffect | src/pages/event-matches.tsx:278-286 | `countPair` adds one to the key of the pair exactly when both ids map to a profile |
| PairHistory.CountPairSymmetric | src/pages/event-matches.tsx:278-286 | counting a side with its players swapped has the same effect |
| PairHistory.CountHistoryOccurrences | src/pages/event-matches.tsx:276-292 | counting one history adds, for each key, the number of winner and loser sides that form that pair |
| PairHistory.PairFrequencyCounts | src/pages/event-matches.tsx:260-299 | each key's frequency is the number of past winner and loser sides, over all usable events, that formed that pair |
| PairHistory.BuildPairFrequency | src/pages/event-matches.tsx:260-299 | the nested loops build `PairFrequency(events)` |
| TeamSuggestion.AssignedIds | src/pages/event-matches.tsx:235-239 | exactly the non-empty ids held by some setup team |
| TeamSuggestion.CollectAssigned | src/pages/event-matches.tsx:235-239 | the loop builds `AssignedIds(teams)` |
| TeamSuggestion.AvailableIds | src/pages/event-matches.tsx:241 | an available player is checked in and held by no setup team |
| TeamSuggestion.FirstMin | src/pages/event-matches.tsx:311-324 | the index of the smallest pair count, the first one on ties |
| TeamSuggestion.FirstMinUnique | src/pages/event-matches.tsx:311-324 | the first minimum is unique |
| TeamSuggestion.ScanStep | src/pages/event-matches.tsx:315-324 | a candidate replaces the best so far exactly when its count is strictly smaller |
| TeamSuggestion.BestPartner | src/pages/event-matches.tsx:348-361 | the scan returns -1 on an empty range, otherwise the first index of least pair count |
| TeamSuggestion.RemoveAtMultiset | src/pages/event-matches.tsx:330 | `splice(i, 1)` removes exactly the element at i |
| TeamSuggestion.PairSameSex | src/pages/event-matches.tsx:346-371 | the same-sex loop produces the teams and the leftover of `SameSexPairing` |
| TeamSuggestion.PairMixed | src/pages/event-matches.tsx:309-334 | the mixed loop produces the teams and both leftovers of `MixedPairing` |
| TeamSuggestion.SameSexCount | src/pages/event-matches.tsx:346-371 | from n candidates, n / 2 teams and n % 2 left over |
| TeamSuggestion.SameSexPartition | src/pages/event-matches.tsx:346-371 | every candidate is in exactly one team or left over |
| TeamSuggestion.MixedCount | src/pages/event-matches.tsx:309-334 | min(males, females) teams; at most one pool has players left over |
| TeamSuggestion.MixedPartition | src/pages/event-matches.tsx:309-334 | every male heads one team or is left over, and every female is second in one team or left over |
| TeamSuggestion.InsertSorted | src/pages/event-matches.tsx:387-391 | inserting a team into a time-sorted list keeps it sorted |
| TeamSuggestion.SortByCheckInSorted | src/pages/event-matches.tsx:387-391 | the new teams come out ordered by the later check-in time of their two players |
| TeamSuggestion.SortByCheckInPermutes | src/pages/event-matches.tsx:387-391 | the sort keeps exactly the same teams |
| TeamSuggestion.SortByCheckInKeepsPlayers | src/pages/event-matches.tsx:387-391 | the sort keeps exactly the same players |
| TeamSuggestion.GeneratedFromAvailable | src/pages/event-matches.tsx:241-258 | every placed player comes out of the available players, no more often than it is there |
| TeamSuggestion.GeneratedPlayers | src/pages/event-matches.tsx:301-378 | with distinct available players, the generated teams hold no id twice and only available ids |
| TeamSuggestion.SuggestionUsesFreePlayers | src/pages/event-matches.tsx:233-393 | the suggested teams use only checked-in players that no setup team holds, and no player twice |
| TeamSuggestion.GeneratedCount | src/pages/event-matches.tsx:248-258 | the team count by kind: half the same-sex pool, or the smaller of the two mixed pools |
| TeamSuggestion.SuggestionCount | src/pages/event-matches.tsx:233-393 | the same counts for the whole suggestion |
| TeamSuggestion.MixedSexes | src/pages/event-matches.tsx:248-258 | in a mixed pairing, each team's first player is an available male and its second an available female |
| TeamSuggestion.SuggestionMixedSexes | src/pages/event-matches.tsx:303-334 | every mixed suggestion pairs a checked-in male with a checked-in female |
| SetupRoster.ChangedRoundTrip | src/pages/event-matches.tsx:211-215 | a change sets the chosen slot and keeps the other; changing the slot back to its old value restores the team; a later change of the same slot overrides the first |
| SetupRoster.RemovedInRange | src/pages/event-matches.tsx:217-221 | removing at a valid index drops that team, keeps the earlier ones and shifts the later ones down |
| SetupRoster.RemovedFromEnd | src/pages/event-matches.tsx:217-221 | a negative index removes counting from the end, or the first team past the front |
| SetupRoster.RemovedPastEnd | src/pages/event-matches.tsx:217-221 | an index at or past the end removes nothing |
| SetupRoster.MovedSwaps | src/pages/event-matches.tsx:223-231 | a move swaps the team with its neighbour and leaves all other teams in place |
| SetupRoster.MovedPermutes | src/pages/event-matches.tsx:223-231 | a move keeps exactly the same teams |
| SetupRoster.MoveDownThenUp | src/pages/event-matches.tsx:223-231 | moving down and then back up restores the list; the last team cannot move down and the first team cannot move up |
| SetupRoster.UnseenStep | src/pages/event-matches.tsx:415-420 | the used-players check of one team and of the rest add up to the check of the whole |
| SetupRoster.CheckFromAccepts | src/pages/event-matches.tsx:405-421 | the loop accepts exactly when every remaining team is proper and shares no player; it then returns all players seen |
| SetupRoster.ValidationAccepts | src/pages/event-matches.tsx:397-421 | the preview proceeds iff there are at least 2 teams per court, every team has two different players, and no player is in two teams |
| SetupRoster.ValidationCountsFirst | src/pages/event-matches.tsx:399-403 | too few teams is reported exactly when there are fewer than 2 per court, before any other check |
| SetupRoster.CheckFromNeverTooFew | src/pages/event-matches.tsx:405-421 | the loop never reports too few teams |
| SetupRoster.CheckFromReasons | src/pages/event-matches.tsx:406-418 | each rejection names a real defect somewhere in the rest: an empty slot, a self-pairing, or a repeated player |
| SetupRoster.PassesStep | src/pages/event-matches.tsx:405-420 | a team without fault followed by teams that pass extends the passing stretch by one, and the players seen add up |
| SetupRoster.CheckFromFirstFailure | src/pages/event-matches.tsx:405-420 | a rejection comes from the first faulty team: all teams before it are proper and share no player, and the verdict is that team's fault against the players seen so far |
| SetupRoster.Roster.constructor | src/pages/event-matches.tsx:72 | the list starts empty |
| SetupRoster.Roster.AddTeam | src/pages/event-matches.tsx:207-209 | appends a team with both slots empty |
| SetupRoster.Roster.ChangeTeam | src/pages/event-matches.tsx:211-215 | replaces one slot of one team and nothing else |
| SetupRoster.Roster.RemoveTeam | src/pages/event-matches.tsx:217-221 | the list becomes `Removed(old list, index)` |
| SetupRoster.Roster.MoveTeam | src/pages/event-matches.tsx:223-231 | the two splices give `Moved(old list, index, direction)` |
| SetupRoster.Roster.GenerateTeams | src/pages/event-matches.tsx:233-395 | the suggestion for the current list is appended after the existing teams |
| SetupRoster.Roster.Preview | src/pages/event-matches.tsx:397-421 | the loop's verdict is `Validation(teams, numCourts)` |
| MatchPage.TeamNamesMembers | src/pages/event-matches.tsx:131-138 | a team contributes exactly the non-empty profiles its two ids map back to |
| MatchPage.OnCourtsMembers | src/pages/event-matches.tsx:128-140 | the profiles on courts are exactly those named for a player of some court's current match |
| MatchPage.InQueueMembers | src/pages/event-matches.tsx:143-148 | the profiles in the queue are exactly those named for a player of some queued team |
| MatchPage.InUseMembers | src/pages/event-matches.tsx:116-151 | in the active phase a profile is in use iff it is named for a player on a court or in the queue; in other phases nobody is |
| MatchPage.InUseFromEntries | src/pages/event-matches.tsx:116-151 | every profile in use is a key of the player map |
| MatchPage.SyncedPhaseNeverPreview | src/pages/event-matches.tsx:154-162 | the phase effect never selects the preview, and a completed or canceled event is shown complete even with a stored match state |
| MatchPage.NoPlayersInUseUnlessLive | src/pages/event-matches.tsx:116-162 | in the phase the effect selects, a player is in use only once the event has loaded, is neither completed nor canceled, and has a stored match state |
| MatchPage.ReverseMapNames | src/pages/event-matches.tsx:122-125 | every reverse-map entry comes from an entry of the player map |
| MatchPage.PlayersInUse | src/pages/event-matches.tsx:116-151 | the two loops compute `InUse` |
| MatchPage.AddIfMapped | src/pages/event-matches.tsx:135-138 | adds the mapped profile only when the lookup is truthy |
| MatchPage.ScoreMapDistinct | src/pages/event-matches.tsx:510-514 | with distinct scores, the score map holds both teams, each under its score |
| MatchPage.ScoreMapTie | src/pages/event-matches.tsx:510-514 | on a tie only team 2 would survive in the object literal |
| MatchPage.ConfirmedScoresKeepBothTeams | src/pages/event-matches.tsx:489-523 | every dialog that opens yields a two-entry score map with both teams |
| MatchPage.SubmitGuardsScoreMap | src/pages/event-matches.tsx:489-514 | the submit guard opens a dialog exactly when the score map built from the live scores would keep both teams |
| MatchPage.EditWinnerSwap | src/pages/event-matches.tsx:1550-1556 | swapping the scores swaps the winner |
| MatchPage.SavedEditHasWinner | src/pages/event-matches.tsx:1545-1585 | a saved edit always has a winner, and it is the team sent with the larger score |
| MatchPage.SaveEnabledIffWinnerShown | src/pages/event-matches.tsx:1550-1585 | saving is possible exactly when no save is running and the "New Winner" line names a team |
| CheckIn.PlayerWindowInsideManagerWindow | src/pages/event-check-in.tsx:116-117 | whenever a player may check in, a manager may too; the manager's window is larger by exactly the ongoing status; neither is open once the event is over |
| CheckIn.PanelOrAttendance | src/pages/event-check-in.tsx:216-315 | exactly one of the manager panel and the attendance list is shown; attendance iff not a manager or the event is over |
| CheckIn.AllPlayersForManagerShape | src/pages/event-check-in.tsx:122-142 | the manager's list always holds the manager: rows as loaded, or one virtual row (id 0, not checked in) in front of them |
| CheckIn.AllPlayersKeepsRows | src/pages/event-check-in.tsx:122-142 | for any viewer the list exists iff the rows loaded or the viewer is a manager with a profile; it ends with the loaded rows unchanged and has at most one row more; anyone else sees exactly the loaded rows |
| CheckIn.AvailablePlayersExactly | src/pages/event-check-in.tsx:144-146 | a player can be added iff listed and without a row in the event; list order kept |
| CheckIn.AvailableBeforeRowsLoad | src/pages/event-check-in.tsx:144-146 | before the rows load, every listed player can be added |
| CheckIn.CheckInButtonFlips | src/pages/event-check-in.tsx:285 | on a stored row the button flips the checked-in state, twice restores it, and check-out is untouched; the virtual row is inserted instead |
| CheckIn.CheckOutButtonFlips | src/pages/event-check-in.tsx:293-297 | the check-out button exists iff the row is checked in; it flips the checked-out state and leaves check-in; the virtual row has none |
| CheckIn.SelfPanelOnlyForPlayers | src/pages/event-check-in.tsx:116-216 | the own-status card appears iff players may check in and the viewer is not a manager; it is never beside the manager panel, always beside the attendance list, and only while managers may manage check-ins too |
| CheckIn.SelfCheckInThenOut | src/pages/event-check-in.tsx:169-213 | the card shows the player's own times: Check In with no check-in, Check Out beside the check-in time once checked in, both times once checked out |
| EventList.StatusVariantBijective | src/pages/events.tsx:12-17 | each status has its own badge and every badge belongs to a status |
| EventList.ManagerCardShowsStatus | src/pages/events.tsx:94-140 | a manager's card tells the four statuses apart by its buttons; a non-manager's card looks the same for scheduled and canceled events |
| EventList.NonManagerActions | src/pages/events.tsx:61-140 | non-managers never get Start, Edit, Delete, Manage or Create Event; they get the read-only matches view exactly where a manager gets Manage; managers get Create Event |
| EventList.OneMatchesLink | src/pages/events.tsx:109-123 | a card never shows both Results and a matches link |
| EventList.StartEventOpensMatches | src/pages/events.tsx:35-123 | the status update is sent iff the dialog is confirmed; after a confirmed start a scheduled card's Start Event gives way to Manage Matches, with Edit/Delete kept |
| PlayerList.ToLower | src/pages/players.tsx:47 | same length, every character lowered |
| PlayerList.ToLowerIdempotent | src/pages/players.tsx:47 | lowering twice is lowering once |
| PlayerList.IncludesEmpty | src/pages/players.tsx:47 | every string includes the empty string |
| PlayerList.FilteredExactly | src/pages/players.tsx:46-48 | a row is listed iff it is on the page and its lowered surname contains the lowered query; page order kept |
| PlayerList.EmptyQueryKeepsAll | src/pages/players.tsx:46-48 | an empty query lists the whole page |
| PlayerList.QueryCaseIgnored | src/pages/players.tsx:46-48 | a query and its lower-case form list the same rows |
| PlayerList.FullSurnameFinds | src/pages/players.tsx:46-48 | searching a player's full surname, in any case, lists that player |
| PlayerList.BadgesMatchFormValues | src/pages/players.tsx:172-175 | the sex badge reads "Male" for "M" and "Female" for "F", the two values of the form, never alike; the two roles get different badge styles |
| Pagination.CeilDiv | src/pages/events.tsx:154 | the least number of pages that covers the total |
| Pagination.PageCount | src/pages/events.tsx:154 | "of N" is at least 1, and the exact ceiling when there is anything |
| Pagination.PagesCover | src/pages/events.tsx:154 | the "of N" pages cover the whole list and none is empty: N pages hold every item and the last starts before the end, for any page size (the events page asks for 12 per page at events.tsx:22, the players page for 20 at players.tsx:32) |
| Pagination.PrevClamps | src/pages/events.tsx:146-148 | Prev never goes below 1, steps down by one above 1, and is disabled on page 1 |
| Pagination.EmptyListIsOnePage | src/pages/players.tsx:208-216 | on the players page, whose pager is always shown: with nothing to show, one page and both buttons disabled |
| Pagination.NextDisabledFromLastPage | src/pages/events.tsx:154-158 | with something to show, Next is disabled exactly from the last page on |
| Pagination.NavigateStaysInRange | src/pages/players.tsx:208-215 | clicking enabled buttons keeps the page between 1 and the count shown |
| Pagination.NextFrom | src/pages/players.tsx:213 | k Next clicks from a page reach k pages further, while that is within the count |

## Left out

- The queue manager (courts, queue, match history, undo/redo, locking) is not part of this model. It is an opaque state value. What its calls answer is a parameter.
- The database, React Query caching, optimistic updates and toasts are left out. Each mutation's success or failure is a parameter.
- `saveState`'s own check for a completed event is not modelled. Every caller modelled here (`recordResult`, `updateScore`) has already returned on a completed event.
- `JSON.parse` of stored states, `localStorage` persistence of the setup list, and zod form schemas are left out. Decoded values are inputs: `PastEvent.history`, `QueueBlob`.
- The `checkedInPlayers` list is an input, `checkedIn`. Its derivation is not modelled: filter the rows by check-in time, sort them, take their players.
- `Math.random` shuffles: the shuffled orders are inputs, required to be permutations of the pools. Which permutation comes out is not modelled.
- `toast` messages of the generator (count of teams and leftovers) and of the validation are not modelled as text. The validation verdict names which toast fires.
- The part of `handlePreview` after validation builds the queue manager's teams. It is not modelled, because it belongs to the queue manager.
- The Add Team dialog, fullscreen courts and other rendering are left out. The event form, sign-up, profile and route protection are left out too.
- TeamSuggestion.CheckInTime: a single `now` stands for every `Date.now()` fallback. The source reads the clock again at each lookup.
- PairHistory.LexLe: compares characters by their code points. The UTF-16 code-unit order of `sort` is not modelled for characters outside the basic plane.
- PlayerList.ToLower: lowers ASCII letters only. Unicode case mapping is not modelled.
- SetupRoster.Roster.ChangeTeam: requires the index to be inside the list. The page only passes indices of rendered rows. The sparse array an out-of-range index would create is not modelled.
- SetupRoster.Roster.MoveTeam: requires the index to be inside the list, for the same reason.
- CheckIn timestamps are integers rather than ISO strings. An empty timestamp string, which the source would treat as falsy, is not modelled.
- The empty-list message of the events and players pages is rendering only; it is not modelled beyond the page count of an empty list.
- The events page renders its pager only while the current page holds events (events.tsx:70-74). An empty list, or a page left past the end once a delete shrinks the total, shows "No events found" and no Prev button to go back. The `Pagination` lemmas describe the pager while it is shown; this hidden-pager case is not modelled.
- MatchManagement.MatchManagementHook.RecordResult: the queue manager's `saveState`/`loadState` round trip is not assumed. `restored` is what loading the snapshot does: the state it yields, or the error it throws with the state it leaves; the old state comes back only when that round trip is exact.
- MatchManagement.MatchManagementHook.UpdateScore: what the queue manager's `updateScore` leaves behind when it throws is the parameter `partial`; the hook does no rollback, so the old state is kept only when the manager leaves it untouched.
- Handlers that only forward to a mutation are not modelled beyond their guard: the player's own check-in and check-out, `handleAddPlayer`, and delete/edit of events and players.
