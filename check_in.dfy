/**
 * The check-in page of an event: who may check in whom in which status, the
 * list a manager works on, the players that can still be added, and what the
 * toggle buttons send.
 */
module CheckIn {
  import opened Common

  // ---------------------------------------------------------------------------
  // Permissions and panels
  // ---------------------------------------------------------------------------

  /** A player may check themself in only while the event is scheduled. */
  function CanPlayerCheckIn(status: EventStatus): bool
  {
    status == Scheduled
  }

  /** A manager may manage check-ins while the event is scheduled or ongoing. */
  function CanManagerCheckIn(status: EventStatus): bool
  {
    status == Ongoing || status == Scheduled
  }

  /**
   * Whenever a player may check in, a manager may manage check-ins too; the
   * manager's window is larger by exactly the ongoing status, and neither is
   * open once the event is over.
   */
  lemma PlayerWindowInsideManagerWindow(status: EventStatus)
    ensures CanPlayerCheckIn(status) ==> CanManagerCheckIn(status)
    ensures CanManagerCheckIn(status) && !CanPlayerCheckIn(status) <==> status == Ongoing
    ensures status == Completed || status == Canceled ==> !CanManagerCheckIn(status)
  {
  }

  /** The manager panel is shown to a manager while managing is allowed. */
  function ShowsManagerPanel(isManager: bool, status: EventStatus): bool {
    isManager && CanManagerCheckIn(status)
  }

  /** The attendance list is shown to non-managers, and to managers once managing is over. */
  function ShowsAttendance(isManager: bool, status: EventStatus): bool {
    !isManager || !CanManagerCheckIn(status)
  }

  /** Exactly one of the manager panel and the attendance list is shown. */
  lemma PanelOrAttendance(isManager: bool, status: EventStatus)
    ensures ShowsManagerPanel(isManager, status) != ShowsAttendance(isManager, status)
    ensures ShowsAttendance(isManager, status) <==> !isManager || status == Completed || status == Canceled
  {
  }

  // ---------------------------------------------------------------------------
  // Rows
  // ---------------------------------------------------------------------------

  /** A player profile, as the players list returns it. */
  datatype Player = Player(id: string, surname: string)

  /**
   * An `event_players` row; timestamps are integers and `None` is null.
   * The player join may be missing.
   */
  datatype EventPlayer = EventPlayer(id: int, eventId: int, playerId: string,
                                     checkedInAt: Option<int>, checkedOutAt: Option<int>,
                                     player: Option<Player>)

  /** The signed-in user's own row, as the status query returns it. */
  datatype PlayerStatus = PlayerStatus(checkedInAt: Option<int>, checkedOutAt: Option<int>)

  /** Some row of the event belongs to the player (`eventPlayers?.some(...)`, false when not loaded). */
  predicate HasRow(eventPlayers: Option<seq<EventPlayer>>, playerId: string) {
    eventPlayers.Some? && exists ep :: ep in eventPlayers.value && ep.playerId == playerId
  }

  // ---------------------------------------------------------------------------
  // The manager's list and the players that can be added
  // ---------------------------------------------------------------------------

  /** The row shown for a manager who has none yet: id 0, not checked in or out. */
  function VirtualEntry(eventId: int, userId: string, surname: string): EventPlayer {
    EventPlayer(0, eventId, userId, None, None, Some(Player(userId, surname)))
  }

  /**
   * `allPlayersForManager`: for a signed-in manager with a profile, the rows
   * with a virtual row for the manager in front when they have none;
   * otherwise the rows as loaded.
   */
  function AllPlayersForManager(isManager: bool, user: Option<string>, surname: Option<string>,
                                eventId: int, eventPlayers: Option<seq<EventPlayer>>): Option<seq<EventPlayer>>
  {
    if isManager && user.Some? && surname.Some? then
      var rows := if eventPlayers.Some? then eventPlayers.value else [];
      if !HasRow(eventPlayers, user.value) then Some([VirtualEntry(eventId, user.value, surname.value)] + rows)
      else Some(rows)
    else eventPlayers
  }

  /**
   * The manager's list always holds the manager, exactly one virtual row is
   * added (in front) when there is none, and the loaded rows follow unchanged.
   */
  lemma AllPlayersForManagerShape(user: string, surname: string, eventId: int, eventPlayers: Option<seq<EventPlayer>>)
    ensures var list := AllPlayersForManager(true, Some(user), Some(surname), eventId, eventPlayers);
            var rows := if eventPlayers.Some? then eventPlayers.value else [];
            list.Some?
            && (exists ep :: ep in list.value && ep.playerId == user)
            && (HasRow(eventPlayers, user) ==> list.value == rows)
            && (!HasRow(eventPlayers, user) ==>
                  list.value == [VirtualEntry(eventId, user, surname)] + rows
                  && list.value[0].id == 0 && list.value[0].checkedInAt.None? && list.value[0].checkedOutAt.None?)
  {
    var list := AllPlayersForManager(true, Some(user), Some(surname), eventId, eventPlayers);
    if !HasRow(eventPlayers, user) {
      assert list.value[0].playerId == user;
    }
  }

  /**
   * For every viewer the list exists once the rows have loaded or the viewer
   * is a manager with a profile; it ends with the loaded rows, unchanged, and
   * has at most one row more. Anyone else sees exactly the loaded rows.
   */
  lemma AllPlayersKeepsRows(isManager: bool, user: Option<string>, surname: Option<string>,
                            eventId: int, eventPlayers: Option<seq<EventPlayer>>)
    ensures var list := AllPlayersForManager(isManager, user, surname, eventId, eventPlayers);
            var rows := if eventPlayers.Some? then eventPlayers.value else [];
            (list.Some? <==> eventPlayers.Some? || (isManager && user.Some? && surname.Some?))
            && (list.Some? ==> |rows| <= |list.value| <= |rows| + 1 && list.value[|list.value| - |rows|..] == rows)
            && (!(isManager && user.Some? && surname.Some?) ==> list == eventPlayers)
  {
  }

  /** `availablePlayers`: the players with no row in this event, in the players list's order. */
  function AvailablePlayers(allPlayers: Option<seq<Player>>, eventPlayers: Option<seq<EventPlayer>>): seq<Player>
  {
    if allPlayers.None? then []
    else Filter(allPlayers.value, (p: Player) => !HasRow(eventPlayers, p.id))
  }

  /**
   * A player can be added exactly when they are in the players list and have
   * no row in the event; the order of the players list is kept.
   */
  lemma AvailablePlayersExactly(allPlayers: seq<Player>, eventPlayers: Option<seq<EventPlayer>>, p: Player)
    ensures p in AvailablePlayers(Some(allPlayers), eventPlayers) <==> p in allPlayers && !HasRow(eventPlayers, p.id)
    ensures IsSubsequence(AvailablePlayers(Some(allPlayers), eventPlayers), allPlayers)
  {
    var r := AvailablePlayers(Some(allPlayers), eventPlayers);
    if p in r {
      var i :| 0 <= i < |r| && r[i] == p;
    }
    if p in allPlayers && !HasRow(eventPlayers, p.id) {
      var i :| 0 <= i < |allPlayers| && allPlayers[i] == p;
    }
  }

  /** Before the rows load, every listed player can be added. */
  lemma AvailableBeforeRowsLoad(allPlayers: seq<Player>)
    ensures AvailablePlayers(Some(allPlayers), None) == allPlayers
  {
    FilterKeepsAll(allPlayers);
  }

  lemma {:induction false} FilterKeepsAll(ps: seq<Player>)
    ensures Filter(ps, (p: Player) => !HasRow(None, p.id)) == ps
    decreases |ps|
  {
    if ps != [] {
      FilterKeepsAll(ps[1..]);
    }
  }

  // ---------------------------------------------------------------------------
  // Toggles
  // ---------------------------------------------------------------------------

  /** The mutation a button sends. */
  datatype Action =
    | SetCheckIn(eventPlayerId: int, checkedInAt: Option<int>)
    | SetCheckOut(eventPlayerId: int, checkedOutAt: Option<int>)
    | InsertCheckIn(eventId: int, playerId: string)

  /**
   * `handleManagerToggleCheckIn`: a row with a (truthy) id has its check-in
   * cleared when set and set to now when not; without one the player is
   * checked in afresh.
   */
  function ToggleCheckIn(eventId: int, playerId: string, eventPlayerId: Option<int>, currentStatus: Option<int>, now: int): Action
  {
    if eventPlayerId.Some? && eventPlayerId.value != 0 then
      SetCheckIn(eventPlayerId.value, if currentStatus.Some? then None else Some(now))
    else InsertCheckIn(eventId, playerId)
  }

  /** The check-in button of a row: its id passes through `ep.id || null`. */
  function CheckInButton(eventId: int, ep: EventPlayer, now: int): Action {
    ToggleCheckIn(eventId, ep.playerId, if ep.id != 0 then Some(ep.id) else None, ep.checkedInAt, now)
  }

  /** `handleManagerToggleCheckOut`: a set check-out is cleared, a missing one set to now. */
  function ToggleCheckOut(eventPlayerId: int, currentStatus: Option<int>, now: int): Action {
    SetCheckOut(eventPlayerId, if currentStatus.Some? then None else Some(now))
  }

  /** The check-out button of a row, offered only once the row is checked in. */
  function CheckOutButton(ep: EventPlayer, now: int): Option<Action> {
    if ep.checkedInAt.Some? then Some(ToggleCheckOut(ep.id, ep.checkedOutAt, now)) else None
  }

  /** The row after the database applies an update to it. */
  function Apply(ep: EventPlayer, a: Action): EventPlayer {
    match a
    case SetCheckIn(i, t) => if i == ep.id then ep.(checkedInAt := t) else ep
    case SetCheckOut(i, t) => if i == ep.id then ep.(checkedOutAt := t) else ep
    case InsertCheckIn(_, _) => ep
  }

  /**
   * For a stored row the check-in button flips whether the row is checked in,
   * and pressing it twice restores that; the virtual row (id 0) is inserted
   * instead.
   */
  lemma CheckInButtonFlips(eventId: int, ep: EventPlayer, now1: int, now2: int)
    ensures ep.id != 0 ==>
              var once := Apply(ep, CheckInButton(eventId, ep, now1));
              once.checkedInAt.Some? != ep.checkedInAt.Some?
              && Apply(once, CheckInButton(eventId, once, now2)).checkedInAt.Some? == ep.checkedInAt.Some?
              && once.checkedOutAt == ep.checkedOutAt
    ensures ep.id == 0 ==> CheckInButton(eventId, ep, now1) == InsertCheckIn(eventId, ep.playerId)
  {
  }

  /**
   * The check-out button flips whether a checked-in row is checked out and
   * leaves its check-in alone; the virtual row, never checked in, has none.
   */
  lemma CheckOutButtonFlips(ep: EventPlayer, now: int, eventId: int, userId: string, surname: string)
    ensures CheckOutButton(ep, now).Some? <==> ep.checkedInAt.Some?
    ensures CheckOutButton(ep, now).Some? ==>
              var after := Apply(ep, CheckOutButton(ep, now).value);
              after.checkedOutAt.Some? != ep.checkedOutAt.Some? && after.checkedInAt == ep.checkedInAt
    ensures CheckOutButton(VirtualEntry(eventId, userId, surname), now).None?
  {
  }

  // ---------------------------------------------------------------------------
  // The player's own panel
  // ---------------------------------------------------------------------------

  datatype SelfPanel =
    | NoSelfPanel
    | CheckInOffered
    | CheckedInAndOut(checkedInAt: int, checkedOutAt: int)
    | CheckOutOffered(checkedInAt: int)

  /**
   * The "Your Status" card: only for a non-manager while players may check
   * in; it offers Check In, shows both times, or shows the check-in time and
   * offers Check Out.
   */
  function SelfStatus(isManager: bool, status: EventStatus, playerStatus: Option<PlayerStatus>): SelfPanel
  {
    if isManager || !CanPlayerCheckIn(status) then NoSelfPanel
    else if playerStatus.None? || playerStatus.value.checkedInAt.None? then CheckInOffered
    else if playerStatus.value.checkedOutAt.Some? then
      CheckedInAndOut(playerStatus.value.checkedInAt.value, playerStatus.value.checkedOutAt.value)
    else CheckOutOffered(playerStatus.value.checkedInAt.value)
  }

  /**
   * The own panel is never shown beside the manager panel: it appears only
   * for a non-manager, who sees the attendance list, and only while a manager
   * could still manage check-ins as well.
   */
  lemma SelfPanelOnlyForPlayers(isManager: bool, status: EventStatus, playerStatus: Option<PlayerStatus>)
    ensures SelfStatus(isManager, status, playerStatus) != NoSelfPanel
            ==> !ShowsManagerPanel(isManager, status) && ShowsAttendance(isManager, status)
                && CanManagerCheckIn(status)
    ensures SelfStatus(isManager, status, playerStatus) != NoSelfPanel <==> CanPlayerCheckIn(status) && !isManager
  {
  }

  /**
   * The panel shows the player's own times and moves forward with them: with
   * no check-in it offers Check In, after checking in at `t` it offers Check
   * Out beside `t`, and after checking out at `u` it shows both times.
   */
  lemma SelfCheckInThenOut(ps: Option<PlayerStatus>, t: int, u: int)
    ensures var panel := SelfStatus(false, Scheduled, ps);
            (panel.CheckedInAndOut? ==> ps == Some(PlayerStatus(Some(panel.checkedInAt), Some(panel.checkedOutAt))))
            && (panel.CheckOutOffered? ==> ps == Some(PlayerStatus(Some(panel.checkedInAt), None)))
            && (panel == CheckInOffered <==> ps.None? || ps.value.checkedInAt.None?)
    ensures SelfStatus(false, Scheduled, Some(PlayerStatus(Some(t), None))) == CheckOutOffered(t)
    ensures SelfStatus(false, Scheduled, Some(PlayerStatus(Some(t), Some(u)))) == CheckedInAndOut(t, u)
  {
  }
}
