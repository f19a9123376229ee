/** The records the notifier receives and produces. */
module Types {
  import opened Wrappers

  /** A hub event (the `Event` type): `event` is its kind, e.g. "proposal/start". */
  datatype Event = Event(id: string, event: string, space: string, expire: int)

  /** The space a proposal belongs to, as far as the notifier reads it. */
  datatype Space = Space(id: string, name: string, avatar: string)

  /** A proposal as handed to the notifier; `space` is absent when the proposal carries none. */
  datatype Proposal = Proposal(title: string, link: string, space: Option<Space>)

  /** The payload sent to the WalletConnect Notify server (`type` is `notificationType` here). */
  datatype Notification = Notification(
    title: string,
    body: string,
    url: string,
    icon: string,
    notificationType: string)
}
