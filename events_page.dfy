/** The events list: the status badge and the actions each event card offers. */
module EventList {
  import opened Common

  datatype BadgeVariant = Default | Secondary | Destructive | Outline

  /** `statusVariants`: the badge each status is drawn with. */
  function StatusVariant(status: EventStatus): BadgeVariant {
    match status
    case Scheduled => Secondary
    case Ongoing => Default
    case Completed => Outline
    case Canceled => Destructive
  }

  /** Different statuses get different badges, and every badge is used by some status. */
  lemma StatusVariantBijective(s: EventStatus, t: EventStatus, v: BadgeVariant)
    ensures StatusVariant(s) == StatusVariant(t) ==> s == t
    ensures exists u :: StatusVariant(u) == v
  {
    match v
    case Default => assert StatusVariant(Ongoing) == v;
    case Secondary => assert StatusVariant(Scheduled) == v;
    case Destructive => assert StatusVariant(Canceled) == v;
    case Outline => assert StatusVariant(Completed) == v;
  }

  /** The label of the link to the matches page of an ongoing event. */
  datatype MatchesLink = NoMatchesLink | Manage | View

  /** What the footer of an event card offers. */
  datatype CardActions = CardActions(checkIns: bool, startEvent: bool, results: bool,
                                     matches: MatchesLink, editDelete: bool)

  /** The footer of an event card for the viewer's role and the event's status. */
  function Actions(isManager: bool, status: EventStatus): CardActions {
    CardActions(
      true,
      isManager && status == Scheduled,
      status == Completed,
      if status == Ongoing then (if isManager then Manage else View) else NoMatchesLink,
      isManager && status != Completed && status != Canceled)
  }

  /**
   * A manager's card tells the four statuses apart by its buttons alone,
   * while a non-manager's card looks the same for a scheduled and a canceled
   * event.
   */
  lemma ManagerCardShowsStatus(s: EventStatus, t: EventStatus)
    ensures Actions(true, s) == Actions(true, t) ==> s == t
    ensures Actions(false, Scheduled) == Actions(false, Canceled)
  {
  }

  /**
   * A viewer who is not a manager can only open check-ins, results and the
   * read-only matches view, and is not offered Create Event; a manager is.
   */
  lemma NonManagerActions(status: EventStatus)
    ensures !Actions(false, status).startEvent && !Actions(false, status).editDelete
    ensures Actions(false, status).matches != Manage
    ensures Actions(false, status).matches == View <==> Actions(true, status).matches == Manage
    ensures !ShowsCreateEvent(false) && ShowsCreateEvent(true)
  {
  }

  /** At most one of the results and matches links appears on a card. */
  lemma OneMatchesLink(isManager: bool, status: EventStatus)
    ensures !(Actions(isManager, status).results && Actions(isManager, status).matches != NoMatchesLink)
  {
  }

  /** The Create Event button is offered to managers only. */
  function ShowsCreateEvent(isManager: bool): bool
  {
    isManager
  }

  /** The update `handleStartEvent` sends: the event becomes ongoing once the dialog is confirmed. */
  function StartEvent(confirmed: bool): Option<EventStatus>
  {
    if confirmed then Some(Ongoing) else None
  }

  /**
   * Starting a scheduled event from a manager's card turns Start Event into
   * the Manage Matches link and keeps Edit and Delete; a dismissed dialog
   * sends nothing and the card stays as it was.
   */
  lemma StartEventOpensMatches(confirmed: bool)
    ensures StartEvent(confirmed).Some? <==> confirmed
    ensures confirmed ==>
              var after := Actions(true, StartEvent(confirmed).value);
              Actions(true, Scheduled).startEvent
              && !after.startEvent && after.matches == Manage && after.editDelete && !after.results
  {
  }
}
