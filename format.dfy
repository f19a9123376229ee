/** `formatMessage`: turning a proposal into the notification payload. */
module Format {
  import opened Wrappers
  import opened Types

  /** The query annotation appended to the proposal link. */
  const APP_QUERY := "?app=web3inbox"
  /** The green-circle emoji (U+1F7E2) that opens every body. */
  const BODY_OPENING := "\U{1F7E2} New proposal on "
  const BODY_CLOSING := "\n\n"

  /**
   * `formatMessage(event, proposal)` with the configured notification type. There is no
   * message when the proposal carries no space; otherwise the title, the icon and the type
   * are taken over as they are, the body is the fixed template naming the space by its name
   * and its id, and the url is the proposal link with the query annotation. The event is
   * never read: the message depends on the proposal and the configured type only.
   */
  function FormatMessage(event: Event, proposal: Proposal, notificationType: string): (r: Option<Notification>)
    ensures r.None? <==> proposal.space.None?
    ensures r.Some? ==>
      && r.value.title == proposal.title
      && r.value.icon == proposal.space.value.avatar
      && r.value.notificationType == notificationType
      && r.value.url == proposal.link + APP_QUERY
      && r.value.body == BODY_OPENING + proposal.space.value.name + " @" + proposal.space.value.id + BODY_CLOSING
  {
    match proposal.space
    case None => None
    case Some(space) =>
      var notificationBody := BODY_OPENING + space.name + " @" + space.id + BODY_CLOSING;
      var url := proposal.link + APP_QUERY;
      Some(Notification(proposal.title, notificationBody, url, space.avatar, notificationType))
  }
}
